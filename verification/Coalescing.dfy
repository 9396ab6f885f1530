/** How a scattered send of the socket emulation becomes a few messages: small neighbouring pieces share a message. */
module Coalescing {
  type byte = bv8

  /** Neighbouring pieces that travel in one message: their total size and their indices. */
  datatype Group = Group(size: nat, list: seq<nat>)

  function Concat(pieces: seq<seq<byte>>): seq<byte> {
    if pieces == [] then [] else Concat(pieces[..|pieces| - 1]) + pieces[|pieces| - 1]
  }

  function Sum(lens: seq<nat>): nat {
    if lens == [] then 0 else Sum(lens[..|lens| - 1]) + lens[|lens| - 1]
  }

  function Lengths(iov: seq<seq<byte>>): (lens: seq<nat>)
    ensures |lens| == |iov| && forall i :: 0 <= i < |lens| ==> lens[i] == |iov[i]|
  {
    seq(|iov|, i requires 0 <= i < |iov| => |iov[i]|)
  }

  // ----- grouping -----

  /** The piece `i` joins the last group if that is empty or has room, and otherwise starts a new one. */
  function Join(groups: seq<Group>, i: nat, len: nat, limit: nat): (r: seq<Group>)
    requires groups != []
    ensures r != []
  {
    var last := groups[|groups| - 1];
    if last.size != 0 && last.size + len > limit then groups + [Group(len, [i])]
    else groups[|groups| - 1 := Group(last.size + len, last.list + [i])]
  }

  function Groups(lens: seq<nat>, limit: nat): (r: seq<Group>)
    ensures r != []
  {
    if lens == [] then [Group(0, [])]
    else Join(Groups(lens[..|lens| - 1], limit), |lens| - 1, lens[|lens| - 1], limit)
  }

  method Coalesce(lens: seq<nat>, limit: nat) returns (groups: seq<Group>)
    ensures groups == Groups(lens, limit)
  {
    groups := [Group(0, [])];
    var index := 0;
    var i := 0;
    while i < |lens|
      invariant i <= |lens| && index == |groups| - 1 && groups == Groups(lens[..i], limit)
    {
      ghost var before := groups;
      assert lens[..i + 1][..i] == lens[..i];
      if groups[index].size != 0 && groups[index].size + lens[i] > limit {
        groups := groups + [Group(0, [])];
        index := index + 1;
      }
      groups := groups[index := Group(groups[index].size + lens[i], groups[index].list + [i])];
      assert [] + [i] == [i] && groups == Join(before, i, lens[i], limit);
      i := i + 1;
    }
    assert lens[..|lens|] == lens;
  }

  /** The lists of the groups, one after the other. */
  function Flatten(groups: seq<Group>): seq<nat> {
    if groups == [] then [] else Flatten(groups[..|groups| - 1]) + groups[|groups| - 1].list
  }

  /** 0, 1, ..., n - 1. */
  function Indices(n: nat): (s: seq<nat>)
    ensures |s| == n && forall i :: 0 <= i < n ==> s[i] == i
  {
    seq(n, i requires 0 <= i => i)
  }

  /** The elements at the listed positions. */
  function Select<T>(s: seq<T>, list: seq<nat>): (r: seq<T>)
    requires forall i :: 0 <= i < |list| ==> list[i] < |s|
    ensures |r| == |list| && forall i :: 0 <= i < |r| ==> r[i] == s[list[i]]
  {
    seq(|list|, i requires 0 <= i < |list| => s[list[i]])
  }

  function NonEmpty(lens: seq<nat>): nat {
    if lens == [] then 0 else NonEmpty(lens[..|lens| - 1]) + if lens[|lens| - 1] == 0 then 0 else 1
  }

  /** What holds of one group. */
  ghost predicate GoodGroup(g: Group, lens: seq<nat>, limit: nat) {
    && (forall i :: 0 <= i < |g.list| ==> g.list[i] < |lens|)
    && g.size == Sum(Select(lens, g.list))
    && (g.size == 0 <==> NonEmpty(Select(lens, g.list)) == 0)
    && (g.size > limit ==> NonEmpty(Select(lens, g.list)) == 1)
  }

  /** A group ends only where the next piece would not have fitted. */
  ghost predicate Closed(groups: seq<Group>, lens: seq<nat>, limit: nat, k: nat)
    requires k + 1 < |groups|
  {
    var next := groups[k + 1].list;
    groups[k].size != 0 && next != [] && next[0] < |lens| && groups[k].size + lens[next[0]] > limit
  }

  lemma MoreLengths(g: Group, lens: seq<nat>, len: nat, limit: nat)
    requires GoodGroup(g, lens, limit)
    ensures GoodGroup(g, lens + [len], limit)
  {
    assert Select(lens + [len], g.list) == Select(lens, g.list);
  }

  lemma JoinedGroup(g: Group, lens: seq<nat>, len: nat, limit: nat)
    requires GoodGroup(g, lens, limit) && (g.size == 0 || g.size + len <= limit)
    ensures GoodGroup(Group(g.size + len, g.list + [|lens|]), lens + [len], limit)
  {
    var joined := Select(lens + [len], g.list + [|lens|]);
    assert joined[..|joined| - 1] == Select(lens, g.list);
  }

  lemma JoinKeepsGood(groups: seq<Group>, lens: seq<nat>, len: nat, limit: nat)
    requires groups != [] && forall k :: 0 <= k < |groups| ==> GoodGroup(groups[k], lens, limit)
    ensures
      var r := Join(groups, |lens|, len, limit);
      forall k :: 0 <= k < |r| ==> GoodGroup(r[k], lens + [len], limit)
  {
    var r := Join(groups, |lens|, len, limit);
    var last := groups[|groups| - 1];
    forall k | 0 <= k < |r| ensures GoodGroup(r[k], lens + [len], limit) {
      if k < |groups| && r[k] == groups[k] {
        MoreLengths(groups[k], lens, len, limit);
      } else if last.size != 0 && last.size + len > limit {
        JoinedGroup(Group(0, []), lens, len, limit);
        assert [] + [|lens|] == [|lens|];
      } else {
        JoinedGroup(last, lens, len, limit);
      }
    }
  }

  /** Sizes are right, and a group exceeds the limit only when it has exactly one piece that is not empty. */
  lemma {:induction false} GroupsAreGood(lens: seq<nat>, limit: nat, k: nat)
    requires k < |Groups(lens, limit)|
    ensures GoodGroup(Groups(lens, limit)[k], lens, limit)
    decreases |lens|
  {
    if lens != [] {
      var front := lens[..|lens| - 1];
      var before := Groups(front, limit);
      forall j | 0 <= j < |before| ensures GoodGroup(before[j], front, limit) {
        GroupsAreGood(front, limit, j);
      }
      JoinKeepsGood(before, front, lens[|lens| - 1], limit);
      assert front + [lens[|lens| - 1]] == lens;
    }
  }

  lemma JoinFlattens(groups: seq<Group>, i: nat, len: nat, limit: nat)
    requires groups != []
    ensures Flatten(Join(groups, i, len, limit)) == Flatten(groups) + [i]
  {
    var r := Join(groups, i, len, limit);
    var front, last := groups[..|groups| - 1], groups[|groups| - 1];
    if |r| > |groups| {
      assert r[..|r| - 1] == groups;
    } else {
      assert r[..|r| - 1] == front && r[|r| - 1].list == last.list + [i];
    }
  }

  /** Every piece is in exactly one group, and the groups follow the order of the pieces. */
  lemma {:induction false} GroupsPartition(lens: seq<nat>, limit: nat)
    ensures Flatten(Groups(lens, limit)) == Indices(|lens|)
    decreases |lens|
  {
    if lens == [] {
      assert Groups(lens, limit)[..0] == [];
    } else {
      var n := |lens| - 1;
      GroupsPartition(lens[..n], limit);
      JoinFlattens(Groups(lens[..n], limit), n, lens[n], limit);
      assert Indices(|lens|) == Indices(n) + [n];
    }
  }

  lemma {:induction false} GroupsAreNotEmpty(lens: seq<nat>, limit: nat, k: nat)
    requires lens != [] && k < |Groups(lens, limit)|
    ensures Groups(lens, limit)[k].list != []
    decreases |lens|
  {
    var front := lens[..|lens| - 1];
    var before := Groups(front, limit);
    if k < |before| - 1 {
      assert front != [];
      GroupsAreNotEmpty(front, limit, k);
    } else if k == |before| - 1 && front != [] {
      GroupsAreNotEmpty(front, limit, k);
    }
  }

  /** Greedy: a new group is started only when the piece does not fit into the one before. */
  lemma {:induction false} GroupsAreMaximal(lens: seq<nat>, limit: nat, k: nat)
    requires k + 1 < |Groups(lens, limit)|
    ensures Closed(Groups(lens, limit), lens, limit, k)
    decreases |lens|
  {
    if lens != [] {
      var n := |lens| - 1;
      var before := Groups(lens[..n], limit);
      if k + 1 < |before| {
        GroupsAreMaximal(lens[..n], limit, k);
        GroupsAreNotEmpty(lens[..n], limit, k + 1);
      }
    }
  }

  // ----- the bytes of the messages -----

  ghost predicate InBounds(groups: seq<Group>, n: nat) {
    forall k, i :: 0 <= k < |groups| && 0 <= i < |groups[k].list| ==> groups[k].list[i] < n
  }

  /** What each message carries. */
  function Payloads(iov: seq<seq<byte>>, groups: seq<Group>): (r: seq<seq<byte>>)
    requires InBounds(groups, |iov|)
    ensures |r| == |groups| && forall k :: 0 <= k < |r| ==> r[k] == Concat(Select(iov, groups[k].list))
  {
    seq(|groups|, k requires 0 <= k < |groups| => Concat(Select(iov, groups[k].list)))
  }

  lemma {:induction false} ConcatAppend(a: seq<seq<byte>>, b: seq<seq<byte>>)
    ensures Concat(a + b) == Concat(a) + Concat(b)
    decreases |b|
  {
    if b == [] {
      assert a + b == a;
    } else {
      ConcatAppend(a, b[..|b| - 1]);
      assert (a + b)[..|a + b| - 1] == a + b[..|b| - 1];
    }
  }

  lemma {:induction false} ConcatLength(pieces: seq<seq<byte>>)
    ensures |Concat(pieces)| == Sum(Lengths(pieces))
    decreases |pieces|
  {
    if pieces != [] {
      ConcatLength(pieces[..|pieces| - 1]);
      assert Lengths(pieces)[..|pieces| - 1] == Lengths(pieces[..|pieces| - 1]);
    }
  }

  lemma {:induction false} PayloadsInOrder(iov: seq<seq<byte>>, groups: seq<Group>)
    requires InBounds(groups, |iov|)
    ensures forall i :: 0 <= i < |Flatten(groups)| ==> Flatten(groups)[i] < |iov|
    ensures Concat(Payloads(iov, groups)) == Concat(Select(iov, Flatten(groups)))
    decreases |groups|
  {
    if groups != [] {
      var front, last := groups[..|groups| - 1], groups[|groups| - 1];
      PayloadsInOrder(iov, front);
      assert Payloads(iov, groups)[..|groups| - 1] == Payloads(iov, front);
      var a, b := Select(iov, Flatten(front)), Select(iov, last.list);
      ConcatAppend(a, b);
      assert Select(iov, Flatten(groups)) == a + b;
    }
  }

  lemma GroupsInBounds(iov: seq<seq<byte>>, limit: nat)
    ensures InBounds(Groups(Lengths(iov), limit), |iov|)
  {
    var groups := Groups(Lengths(iov), limit);
    forall k | 0 <= k < |groups| ensures GoodGroup(groups[k], Lengths(iov), limit) {
      GroupsAreGood(Lengths(iov), limit, k);
    }
  }

  /** The messages carry the bytes of the pieces in order, each message as many as its group says. */
  lemma CoalescingKeepsBytes(iov: seq<seq<byte>>, limit: nat)
    ensures InBounds(Groups(Lengths(iov), limit), |iov|)
    ensures
      var groups := Groups(Lengths(iov), limit);
      && Concat(Payloads(iov, groups)) == Concat(iov)
      && forall k :: 0 <= k < |groups| ==> |Payloads(iov, groups)[k]| == groups[k].size
  {
    var groups := Groups(Lengths(iov), limit);
    GroupsInBounds(iov, limit);
    GroupsPartition(Lengths(iov), limit);
    PayloadsInOrder(iov, groups);
    assert Select(iov, Indices(|iov|)) == iov;
    forall k | 0 <= k < |groups| ensures |Payloads(iov, groups)[k]| == groups[k].size {
      GroupsAreGood(Lengths(iov), limit, k);
      var pieces := Select(iov, groups[k].list);
      ConcatLength(pieces);
      assert Lengths(pieces) == Select(Lengths(iov), groups[k].list);
    }
  }

  // ----- the copies -----

  /** Where a message takes its bytes from: the caller's piece itself, or a span of the copy buffer. */
  datatype Message = Direct(index: nat) | Copied(start: nat, length: nat)

  ghost predicate Carries(m: Message, iov: seq<seq<byte>>, buffered: seq<byte>, bytes: seq<byte>) {
    match m
    case Direct(i) => i < |iov| && iov[i] == bytes
    case Copied(start, length) => start + length <= |buffered| && buffered[start..start + length] == bytes
  }

  method CopyInto(a: array<byte>, at: nat, bytes: seq<byte>)
    requires at + |bytes| <= a.Length
    modifies a
    ensures a[..at] == old(a[..at]) && a[at..at + |bytes|] == bytes
    ensures a[at + |bytes|..] == old(a[at + |bytes|..])
  {
    forall i | 0 <= i < |bytes| {
      a[at + i] := bytes[i];
    }
  }

  /** The size of the copy buffer. */
  function SizeToBuffer(groups: seq<Group>): nat {
    if groups == [] then 0
    else
      var last := groups[|groups| - 1];
      SizeToBuffer(groups[..|groups| - 1]) + if |last.list| != 1 then last.size else 0
  }

  method ComputeSize(groups: seq<Group>) returns (size: nat)
    ensures size == SizeToBuffer(groups)
  {
    size := 0;
    var k := 0;
    while k < |groups|
      invariant k <= |groups| && size == SizeToBuffer(groups[..k])
    {
      assert groups[..k + 1][..k] == groups[..k];
      if |groups[k].list| != 1 {
        size := size + groups[k].size;
      }
      k := k + 1;
    }
    assert groups[..|groups|] == groups;
  }

  lemma {:induction false} SizeGrows(groups: seq<Group>, k: nat)
    requires k <= |groups|
    ensures SizeToBuffer(groups[..k]) <= SizeToBuffer(groups)
    decreases |groups|
  {
    if k == |groups| {
      assert groups[..k] == groups;
    } else {
      SizeGrows(groups[..|groups| - 1], k);
      assert groups[..|groups| - 1][..k] == groups[..k];
    }
  }

  lemma {:induction false} ConcatPrefix(pieces: seq<seq<byte>>, k: nat)
    requires k <= |pieces|
    ensures |Concat(pieces[..k])| <= |Concat(pieces)|
    decreases |pieces|
  {
    if k == |pieces| {
      assert pieces[..k] == pieces;
    } else {
      ConcatPrefix(pieces[..|pieces| - 1], k);
      assert pieces[..|pieces| - 1][..k] == pieces[..k];
    }
  }

  /** The pieces of one group are copied one behind the other. */
  method CopyGroup(iov: seq<seq<byte>>, list: seq<nat>, buffered: array<byte>, start: nat) returns (end: nat)
    requires forall i :: 0 <= i < |list| ==> list[i] < |iov|
    requires start + |Concat(Select(iov, list))| <= buffered.Length
    modifies buffered
    ensures end == start + |Concat(Select(iov, list))|
    ensures buffered[..start] == old(buffered[..start]) && buffered[start..end] == Concat(Select(iov, list))
  {
    ghost var pieces := Select(iov, list);
    end := start;
    var i := 0;
    while i < |list|
      invariant i <= |list| && end == start + |Concat(pieces[..i])| && end <= buffered.Length
      invariant buffered[..start] == old(buffered[..start]) && buffered[start..end] == Concat(pieces[..i])
    {
      assert pieces[..i + 1][..i] == pieces[..i];
      ConcatPrefix(pieces, i + 1);
      ghost var done := buffered[..end];
      CopyInto(buffered, end, iov[list[i]]);
      assert buffered[..start] == done[..start] && buffered[start..end] == done[start..];
      end := end + |iov[list[i]]|;
      i := i + 1;
    }
    assert pieces[..|list|] == pieces;
  }

  /** One message: a piece on its own is sent from where it is, several are copied. */
  method AssembleOne(iov: seq<seq<byte>>, group: Group, buffered: array<byte>, start: nat)
      returns (message: Message, end: nat)
    requires forall i :: 0 <= i < |group.list| ==> group.list[i] < |iov|
    requires |Concat(Select(iov, group.list))| == group.size
    requires |group.list| != 1 ==> start + group.size <= buffered.Length
    requires start <= buffered.Length
    modifies buffered
    ensures end == start + (if |group.list| != 1 then group.size else 0)
    ensures buffered[..start] == old(buffered[..start])
    ensures Carries(message, iov, buffered[..end], Concat(Select(iov, group.list)))
  {
    if |group.list| == 1 {
      message, end := Direct(group.list[0]), start;
      OnePiece(Select(iov, group.list));
    } else {
      end := CopyGroup(iov, group.list, buffered, start);
      message := Copied(start, group.size);
      assert buffered[..end][start..end] == buffered[start..end];
    }
  }

  /** Every message carries its group's bytes, and the copy buffer is exactly as large as the copies need. */
  method Assemble(iov: seq<seq<byte>>, groups: seq<Group>) returns (buffered: array<byte>, messages: seq<Message>)
    requires InBounds(groups, |iov|)
    requires forall k :: 0 <= k < |groups| ==> |Payloads(iov, groups)[k]| == groups[k].size
    ensures |messages| == |groups| && buffered.Length == SizeToBuffer(groups)
    ensures AllCarry(messages, iov, buffered[..], Payloads(iov, groups))
  {
    var size := ComputeSize(groups);
    buffered := new byte[size](_ => 0);
    messages := [];
    ghost var payloads := Payloads(iov, groups);
    var actualSize := 0;
    ghost var done := buffered[..actualSize];
    var k := 0;
    while k < |groups|
      invariant k <= |groups| && |messages| == k
      invariant actualSize == SizeToBuffer(groups[..k]) <= buffered.Length
      invariant done == buffered[..actualSize] && AllCarry(messages, iov, done, payloads)
    {
      assert groups[..k + 1][..k] == groups[..k];
      SizeGrows(groups, k + 1);
      var message, end := AssembleOne(iov, groups[k], buffered, actualSize);
      ghost var more := buffered[..end];
      assert more[..actualSize] == done;
      CopiesStay(messages, iov, done, more, payloads);
      OneMoreCarries(messages, message, iov, more, payloads);
      messages := messages + [message];
      done := more;
      actualSize := end;
      k := k + 1;
    }
    assert groups[..|groups|] == groups && buffered[..actualSize] == buffered[..];
  }

  ghost predicate AllCarry(messages: seq<Message>, iov: seq<seq<byte>>, buffered: seq<byte>, payloads: seq<seq<byte>>) {
    |messages| <= |payloads| && forall j :: 0 <= j < |messages| ==> Carries(messages[j], iov, buffered, payloads[j])
  }

  lemma OnePiece(pieces: seq<seq<byte>>)
    requires |pieces| == 1
    ensures Concat(pieces) == pieces[0]
  {
    assert Concat(pieces[..0]) == [];
  }

  lemma OneMoreCarries(messages: seq<Message>, m: Message, iov: seq<seq<byte>>, buffered: seq<byte>,
                       payloads: seq<seq<byte>>)
    requires AllCarry(messages, iov, buffered, payloads) && |messages| < |payloads|
    requires Carries(m, iov, buffered, payloads[|messages|])
    ensures AllCarry(messages + [m], iov, buffered, payloads)
  {
  }

  lemma SliceOfPrefix(s: seq<byte>, n: nat, a: nat, b: nat)
    requires a <= b <= n <= |s|
    ensures s[..n][a..b] == s[a..b]
  {
    assert forall i :: 0 <= i < b - a ==> s[..n][a..b][i] == s[a + i];
  }

  lemma CopiesStay(messages: seq<Message>, iov: seq<seq<byte>>, done: seq<byte>, more: seq<byte>,
                   payloads: seq<seq<byte>>)
    requires |done| <= |more| && more[..|done|] == done && AllCarry(messages, iov, done, payloads)
    ensures AllCarry(messages, iov, more, payloads)
  {
    forall j | 0 <= j < |messages| ensures Carries(messages[j], iov, more, payloads[j]) {
      assert Carries(messages[j], iov, done, payloads[j]);
      if messages[j].Copied? {
        SliceOfPrefix(more, |done|, messages[j].start, messages[j].start + messages[j].length);
      }
    }
  }
}
