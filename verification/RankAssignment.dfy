/** How the coordinator of a new group hands out ranks: each worker gets the first free slot that has its host name. */
module RankAssignment {
  import opened Common

  const FREE := -1
  const REFUSED := -2

  datatype Worker = Worker(host: string, port: int)

  /** What one accept of the coordinator gives: a worker's introduction, or the socket's error. */
  datatype Accepted = Joined(worker: Worker) | Failed(code: int)

  /** The port table so far and the ranks sent back so far, in the order of arrival. */
  datatype Coordination = Coordination(table: seq<int>, ranks: seq<int>)

  predicate Fits(table: seq<int>, hostnames: seq<string>, host: string, r: int)
    requires |table| == |hostnames| && 0 <= r < |table|
  {
    table[r] == FREE && hostnames[r] == host
  }

  function FreeSlot(table: seq<int>, hostnames: seq<string>, host: string, from: nat): (slot: int)
    requires |table| == |hostnames| && from <= |table|
    ensures slot == -1 || from <= slot < |table|
    ensures slot != -1 ==> Fits(table, hostnames, host, slot)
    ensures forall r :: from <= r < (if slot == -1 then |table| else slot) ==> !Fits(table, hostnames, host, r)
    decreases |table| - from
  {
    if from == |table| then -1
    else if Fits(table, hostnames, host, from) then from
    else FreeSlot(table, hostnames, host, from + 1)
  }

  function Register(hostnames: seq<string>, c: Coordination, w: Worker): (d: Coordination)
    requires 0 < |hostnames| == |c.table|
    ensures |d.table| == |c.table| && |d.ranks| == |c.ranks| + 1
  {
    var slot := FreeSlot(c.table, hostnames, w.host, 1);
    if slot == -1 then c.(ranks := c.ranks + [REFUSED])
    else Coordination(c.table[slot := w.port], c.ranks + [slot])
  }

  /** The coordination after the arrivals `ws`, by a coordinator that listens on `port`. */
  function RegisterAll(hostnames: seq<string>, port: int, ws: seq<Worker>): (c: Coordination)
    requires hostnames != []
    ensures |c.table| == |hostnames| && |c.ranks| == |ws|
  {
    if ws == [] then Coordination([port] + seq(|hostnames| - 1, _ => FREE), [])
    else Register(hostnames, RegisterAll(hostnames, port, ws[..|ws| - 1]), ws[|ws| - 1])
  }

  /** The inner loop of the coordinator. */
  method FindSlot(table: array<int>, hostnames: seq<string>, host: string) returns (rank: int)
    requires 0 < table.Length == |hostnames|
    ensures rank == FreeSlot(table[..], hostnames, host, 1)
    ensures rank == -1 || (1 <= rank < table.Length && table[rank] == -1 && hostnames[rank] == host)
    ensures forall r :: 1 <= r < (if rank == -1 then table.Length else rank) ==> table[r] != -1 || hostnames[r] != host
  {
    rank := -1;
    var r := 1;
    while r < table.Length
      invariant 1 <= r <= table.Length && rank == -1
      invariant FreeSlot(table[..], hostnames, host, 1) == FreeSlot(table[..], hostnames, host, r)
      invariant forall q :: 1 <= q < r ==> table[q] != FREE || hostnames[q] != host
    {
      if table[r] == FREE && hostnames[r] == host {
        rank := r;
        break;
      }
      r := r + 1;
    }
  }

  /** The workers among the first `k` accepts, none of which failed. */
  function WorkersOf(accepts: seq<Accepted>): (ws: seq<Worker>)
    requires forall i :: 0 <= i < |accepts| ==> accepts[i].Joined?
    ensures |ws| == |accepts| && forall i :: 0 <= i < |ws| ==> ws[i] == accepts[i].worker
  {
    seq(|accepts|, i requires 0 <= i < |accepts| => accepts[i].worker)
  }

  /** The coordinator: the port table, the ranks it answers, and the error of the first accept that fails. */
  method Coordinate(hostnames: seq<string>, port: int, accepts: seq<Accepted>)
      returns (error: Option<int>, table: array<int>, ranks: seq<int>)
    requires |accepts| == |hostnames| - 1
    ensures error == None <==> forall i :: 0 <= i < |accepts| ==> accepts[i].Joined?
    ensures error == None ==> Coordination(table[..], ranks) == RegisterAll(hostnames, port, WorkersOf(accepts))
    ensures error == None ==> table.Length == |hostnames| && table[0] == port
    ensures error.Some? ==> |ranks| < |accepts| && accepts[|ranks|] == Failed(error.value)
  {
    var n := |hostnames|;
    table := new int[n](_ => FREE);
    table[0] := port;
    ranks := [];
    assert table[..] == RegisterAll(hostnames, port, []).table;
    var i := 1;
    while i < n
      invariant 1 <= i <= n && |ranks| == i - 1
      invariant forall k :: 0 <= k < i - 1 ==> accepts[k].Joined?
      invariant Coordination(table[..], ranks) == RegisterAll(hostnames, port, WorkersOf(accepts[..i - 1]))
    {
      if accepts[i - 1].Failed? {
        return Some(accepts[i - 1].code), table, ranks;
      }
      var info := accepts[i - 1].worker;
      var rank := FindSlot(table, hostnames, info.host);
      ghost var ws := WorkersOf(accepts[..i]);
      assert ws[..i - 1] == WorkersOf(accepts[..i - 1]);
      if rank == -1 {
        rank := REFUSED;
      } else {
        table[rank] := info.port;
      }
      ranks := ranks + [rank];
      i := i + 1;
    }
    assert accepts[..n - 1] == accepts;
    OtherSlotsStay(hostnames, port, WorkersOf(accepts), 0);
    error := None;
  }

  // ----- what the assignment guarantees -----

  ghost function Positions(s: seq<string>, from: nat, h: string): set<int> {
    set r | from <= r < |s| && s[r] == h
  }

  lemma {:induction false} PositionsAreMultiplicity(s: seq<string>, from: nat, h: string)
    requires from <= |s|
    ensures |Positions(s, from, h)| == multiset(s[from..])[h]
    decreases |s| - from
  {
    if from < |s| {
      PositionsAreMultiplicity(s, from + 1, h);
      assert s[from..] == [s[from]] + s[from + 1..];
      assert Positions(s, from, h) == Positions(s, from + 1, h) + (if s[from] == h then {from as int} else {});
    } else {
      assert s[from..] == [];
    }
  }

  function Hosts(ws: seq<Worker>): (hosts: seq<string>)
    ensures |hosts| == |ws| && forall i :: 0 <= i < |ws| ==> hosts[i] == ws[i].host
  {
    seq(|ws|, i requires 0 <= i < |ws| => ws[i].host)
  }

  ghost predicate PortsAreNumbers(ws: seq<Worker>) {
    forall i :: 0 <= i < |ws| ==> ws[i].port != FREE
  }

  /** The slots for `h` that are taken, and the workers from `h` that were not refused. */
  ghost function Taken(hostnames: seq<string>, table: seq<int>, h: string): set<int>
    requires |table| == |hostnames|
  {
    set r | 1 <= r < |table| && hostnames[r] == h && table[r] != FREE
  }

  ghost function Placed(ws: seq<Worker>, ranks: seq<int>, h: string): set<int>
    requires |ranks| == |ws|
  {
    set i | 0 <= i < |ws| && ws[i].host == h && ranks[i] != REFUSED
  }

  ghost predicate Assigned(hostnames: seq<string>, ws: seq<Worker>, c: Coordination) {
    && |c.table| == |hostnames| && |c.ranks| == |ws|
    && (forall i :: 0 <= i < |ws| && c.ranks[i] != REFUSED ==>
          && 1 <= c.ranks[i] < |hostnames|
          && hostnames[c.ranks[i]] == ws[i].host && c.table[c.ranks[i]] == ws[i].port)
    && (forall i, j :: 0 <= i < j < |ws| && c.ranks[i] != REFUSED ==> c.ranks[i] != c.ranks[j])
  }

  ghost predicate Counted(hostnames: seq<string>, ws: seq<Worker>, c: Coordination, h: string)
    requires |c.table| == |hostnames| && |c.ranks| == |ws|
  {
    && |Placed(ws, c.ranks, h)| == |Taken(hostnames, c.table, h)|
    && (forall i :: 0 <= i < |ws| && ws[i].host == h && c.ranks[i] == REFUSED ==>
          Taken(hostnames, c.table, h) == Positions(hostnames, 1, h))
  }

  /** What a placement adds to the slots taken and the workers placed. */
  lemma PlacingSets(hostnames: seq<string>, before: seq<Worker>, c: Coordination, w: Worker, h: string)
    requires 0 < |hostnames| == |c.table| && |c.ranks| == |before| && w.port != FREE
    requires FreeSlot(c.table, hostnames, w.host, 1) != -1
    ensures
      var d, slot := Register(hostnames, c, w), FreeSlot(c.table, hostnames, w.host, 1);
      && Placed(before + [w], d.ranks, h) == Placed(before, c.ranks, h) + (if w.host == h then {|before|} else {})
      && Taken(hostnames, d.table, h) == Taken(hostnames, c.table, h) + (if w.host == h then {slot} else {})
  {
    var d := Register(hostnames, c, w);
    assert forall i :: 0 <= i < |before| ==> (before + [w])[i] == before[i] && d.ranks[i] == c.ranks[i];
  }

  lemma PlacingKeepsCount(hostnames: seq<string>, before: seq<Worker>, c: Coordination, w: Worker, h: string)
    requires 0 < |hostnames| == |c.table| && |c.ranks| == |before| && w.port != FREE
    requires Counted(hostnames, before, c, h) && FreeSlot(c.table, hostnames, w.host, 1) != -1
    ensures Counted(hostnames, before + [w], Register(hostnames, c, w), h)
  {
    var slot := FreeSlot(c.table, hostnames, w.host, 1);
    PlacingSets(hostnames, before, c, w, h);
    if w.host == h {
      assert slot in Positions(hostnames, 1, h) && slot !in Taken(hostnames, c.table, h);
      assert forall i :: 0 <= i < |before| && before[i].host == h ==> c.ranks[i] != REFUSED;
    }
  }

  lemma RefusingKeepsCount(hostnames: seq<string>, before: seq<Worker>, c: Coordination, w: Worker, h: string)
    requires 0 < |hostnames| == |c.table| && |c.ranks| == |before|
    requires Counted(hostnames, before, c, h) && FreeSlot(c.table, hostnames, w.host, 1) == -1
    ensures Counted(hostnames, before + [w], Register(hostnames, c, w), h)
  {
    var d := Register(hostnames, c, w);
    assert Placed(before + [w], d.ranks, h) == Placed(before, c.ranks, h);
    if w.host == h {
      assert forall r :: r in Positions(hostnames, 1, h) ==> !Fits(c.table, hostnames, h, r);
      assert Taken(hostnames, c.table, h) == Positions(hostnames, 1, h);
    }
  }

  lemma RegisterKeepsAssigned(hostnames: seq<string>, before: seq<Worker>, c: Coordination, w: Worker)
    requires 0 < |hostnames| && Assigned(hostnames, before, c) && w.port != FREE && PortsAreNumbers(before)
    ensures Assigned(hostnames, before + [w], Register(hostnames, c, w))
  {
    var slot := FreeSlot(c.table, hostnames, w.host, 1);
    if slot != -1 {
      assert forall i :: 0 <= i < |before| && c.ranks[i] != REFUSED ==> c.table[c.ranks[i]] != FREE;
    }
  }

  /** Ranks are never given twice, carry the worker's host name, and the table holds the worker's port. */
  lemma {:induction false} RanksAreRight(hostnames: seq<string>, port: int, ws: seq<Worker>)
    requires hostnames != [] && PortsAreNumbers(ws)
    ensures Assigned(hostnames, ws, RegisterAll(hostnames, port, ws))
  {
    if ws != [] {
      var before, w := ws[..|ws| - 1], ws[|ws| - 1];
      RanksAreRight(hostnames, port, before);
      RegisterKeepsAssigned(hostnames, before, RegisterAll(hostnames, port, before), w);
      assert before + [w] == ws;
    }
  }

  /** The coordinator keeps its own port in slot 0, and a slot that no worker was given stays free. */
  lemma {:induction false} OtherSlotsStay(hostnames: seq<string>, port: int, ws: seq<Worker>, r: nat)
    requires hostnames != [] && r < |hostnames|
    ensures
      var c := RegisterAll(hostnames, port, ws);
      && c.table[0] == port
      && (r > 0 && (forall i :: 0 <= i < |ws| ==> c.ranks[i] != r) ==> c.table[r] == -1)
  {
    if ws != [] {
      var n := |ws| - 1;
      var c, d := RegisterAll(hostnames, port, ws[..n]), RegisterAll(hostnames, port, ws);
      OtherSlotsStay(hostnames, port, ws[..n], r);
      var slot := FreeSlot(c.table, hostnames, ws[n].host, 1);
      assert d.ranks[n] == if slot == -1 then REFUSED else slot;
      assert forall i :: 0 <= i < n ==> d.ranks[i] == c.ranks[i];
    }
  }

  lemma {:induction false} CountIsKept(hostnames: seq<string>, port: int, ws: seq<Worker>, h: string)
    requires hostnames != [] && PortsAreNumbers(ws)
    ensures Counted(hostnames, ws, RegisterAll(hostnames, port, ws), h)
  {
    if ws == [] {
      assert Taken(hostnames, RegisterAll(hostnames, port, ws).table, h) == {};
      assert Placed(ws, [], h) == {};
    } else {
      var before, w := ws[..|ws| - 1], ws[|ws| - 1];
      CountIsKept(hostnames, port, before, h);
      var c := RegisterAll(hostnames, port, before);
      if FreeSlot(c.table, hostnames, w.host, 1) != -1 {
        PlacingKeepsCount(hostnames, before, c, w, h);
      } else {
        RefusingKeepsCount(hostnames, before, c, w, h);
      }
      assert before + [w] == ws;
    }
  }

  /** A worker is refused if and only if every slot with its host name is taken when it arrives. */
  lemma RefusedOnlyWhenFull(hostnames: seq<string>, port: int, before: seq<Worker>, w: Worker)
    requires hostnames != []
    ensures
      var c := RegisterAll(hostnames, port, before);
      var full := forall r :: 1 <= r < |hostnames| && hostnames[r] == w.host ==> c.table[r] != FREE;
      var ranks := RegisterAll(hostnames, port, before + [w]).ranks;
      ranks[..|before|] == c.ranks && (ranks[|before|] == REFUSED <==> full)
  {
    var all := before + [w];
    assert all[..|all| - 1] == before;
    var c := RegisterAll(hostnames, port, before);
    assert forall r :: 1 <= r < |hostnames| ==>
      (Fits(c.table, hostnames, w.host, r) <==> hostnames[r] == w.host && c.table[r] == FREE);
  }

  /** Of the workers from one host, as many get a rank as there are slots for that host, or all if there are enough. */
  lemma PlacedPerHost(hostnames: seq<string>, port: int, ws: seq<Worker>, h: string)
    requires hostnames != [] && PortsAreNumbers(ws)
    ensures
      var arrived, slots := multiset(Hosts(ws))[h], multiset(hostnames[1..])[h];
      |Placed(ws, RegisterAll(hostnames, port, ws).ranks, h)| == if arrived <= slots then arrived else slots
  {
    var c := RegisterAll(hostnames, port, ws);
    CountIsKept(hostnames, port, ws, h);
    PositionsAreMultiplicity(hostnames, 1, h);
    PositionsAreMultiplicity(Hosts(ws), 0, h);
    assert Hosts(ws)[0..] == Hosts(ws);
    var arrivals, placed := Positions(Hosts(ws), 0, h), Placed(ws, c.ranks, h);
    var slots, taken := Positions(hostnames, 1, h), Taken(hostnames, c.table, h);
    SubsetSize(placed, arrivals);
    SubsetSize(taken, slots);
    if placed != arrivals {
      var i :| i in arrivals && i !in placed;
      assert c.ranks[i] == REFUSED && taken == slots;
    }
  }

  ghost predicate NobodyRefused(c: Coordination) {
    forall i :: 0 <= i < |c.ranks| ==> c.ranks[i] != REFUSED
  }

  lemma AllPlaced(hostnames: seq<string>, port: int, ws: seq<Worker>, h: string)
    requires hostnames != [] && PortsAreNumbers(ws)
    requires NobodyRefused(RegisterAll(hostnames, port, ws))
    ensures multiset(Hosts(ws))[h] <= multiset(hostnames[1..])[h]
  {
    PlacedPerHost(hostnames, port, ws, h);
    PositionsAreMultiplicity(Hosts(ws), 0, h);
    assert Hosts(ws)[0..] == Hosts(ws);
    assert Placed(ws, RegisterAll(hostnames, port, ws).ranks, h) == Positions(Hosts(ws), 0, h);
  }

  lemma SameSizeSubmultiset<T>(a: multiset<T>, b: multiset<T>)
    requires a <= b && |a| == |b|
    ensures a == b
  {
    assert b == a + (b - a);
    assert |b - a| == 0;
  }

  /** A full set of workers is accepted if and only if its host names are those of the slots, in whatever order. */
  lemma NobodyRefusedIff(hostnames: seq<string>, port: int, ws: seq<Worker>)
    requires |ws| == |hostnames| - 1 && PortsAreNumbers(ws)
    ensures NobodyRefused(RegisterAll(hostnames, port, ws)) <==> multiset(Hosts(ws)) == multiset(hostnames[1..])
  {
    var c := RegisterAll(hostnames, port, ws);
    var arrived, slots := multiset(Hosts(ws)), multiset(hostnames[1..]);
    if NobodyRefused(c) {
      forall h ensures arrived[h] <= slots[h] {
        AllPlaced(hostnames, port, ws, h);
      }
      assert |arrived| == |slots|;
      SameSizeSubmultiset(arrived, slots);
    }
    if arrived == slots {
      forall i | 0 <= i < |ws| ensures c.ranks[i] != REFUSED {
        var h := ws[i].host;
        PlacedPerHost(hostnames, port, ws, h);
        PositionsAreMultiplicity(Hosts(ws), 0, h);
        assert Hosts(ws)[0..] == Hosts(ws);
        SubsetSize(Placed(ws, c.ranks, h), Positions(Hosts(ws), 0, h));
        assert i in Positions(Hosts(ws), 0, h);
      }
    }
  }

  lemma {:induction false} InjectiveFillsRange(ranks: seq<int>, k: nat, n: nat)
    requires k <= |ranks| && forall i :: 0 <= i < |ranks| ==> 1 <= ranks[i] <= n
    requires forall i, j :: 0 <= i < j < |ranks| ==> ranks[i] != ranks[j]
    ensures |set i | 0 <= i < k :: ranks[i]| == k
    decreases k
  {
    var images := set i | 0 <= i < k :: ranks[i];
    if k > 0 {
      InjectiveFillsRange(ranks, k - 1, n);
      var fewer := set i | 0 <= i < k - 1 :: ranks[i];
      assert images == fewer + {ranks[k - 1]} && ranks[k - 1] !in fewer;
    } else {
      assert images == {};
    }
  }

  /**
   * When the workers' host names are those of the slots, whatever their order of arrival, the assignment is a
   * bijection onto the ranks 1 .. n - 1: every rank has a worker, with its host name and with its port in the table.
   */
  lemma GreedyIsBijection(hostnames: seq<string>, port: int, ws: seq<Worker>, r: int) returns (i: nat)
    requires hostnames != [] && PortsAreNumbers(ws)
    requires multiset(Hosts(ws)) == multiset(hostnames[1..]) && 1 <= r < |hostnames|
    ensures
      var c := RegisterAll(hostnames, port, ws);
      && i < |ws| && c.ranks[i] == r && ws[i].host == hostnames[r] && c.table[r] == ws[i].port
      && forall j :: 0 <= j < |ws| && c.ranks[j] == r ==> j == i
  {
    var c := RegisterAll(hostnames, port, ws);
    var n := |hostnames| - 1;
    assert |multiset(Hosts(ws))| == |ws| && |multiset(hostnames[1..])| == n;
    NobodyRefusedIff(hostnames, port, ws);
    RanksAreRight(hostnames, port, ws);
    InjectiveFillsRange(c.ranks, n, n);
    var images := set k | 0 <= k < n :: c.ranks[k];
    SubsetSize(images, Range(1, n + 1));
    assert r in images;
    i :| 0 <= i < |ws| && c.ranks[i] == r;
  }

  /** A worker that announces -1 as its port leaves its slot free, and the next worker is given the same rank. */
  lemma PortMinusOneRepeatsRank(host: string, port: int)
    ensures RegisterAll(["", host, host], port, [Worker(host, FREE), Worker(host, 7)]).ranks == [1, 1]
  {
    var hostnames := ["", host, host];
    var first, second := Worker(host, FREE), Worker(host, 7);
    assert [first, second][..1] == [first] && [first][..0] == [];
    var c := RegisterAll(hostnames, port, []);
    assert Fits(c.table, hostnames, host, 1);
    var d := RegisterAll(hostnames, port, [first]);
    assert Fits(d.table, hostnames, host, 1);
  }
}
