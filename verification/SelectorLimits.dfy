/** Where narrowed lists outgrow their count octet: single addresses against single ports. */
module SelectorLimits {
  import opened Wire
  import opened IkeCodec
  import opened IkeRoundTrip
  import opened Selectors

  function Host(i: u16): (s: Selector) { Selector(V4(i), V4(i), 0, 0, 0xffff) }

  function Port(j: u16): (s: Selector) { Selector(V4(0), V4(0xffff_ffff), 0, j, j) }

  function Cell(i: u16, j: u16): (s: Selector) { Selector(V4(i), V4(i), 0, j, j) }

  const ANY: Selector := Selector(V4(0), V4(0xffff_ffff), 0, 0, 0xffff)

  function Hosts(n: u16): (ss: seq<Selector>)
    ensures |ss| == n
  {
    seq(n, i requires 0 <= i < n => Host(i))
  }

  function Ports(m: u16): (ss: seq<Selector>)
    ensures |ss| == m
  {
    seq(m, j requires 0 <= j < m => Port(j))
  }

  function Row(i: u16, m: u16): (ss: seq<Selector>)
    ensures |ss| == m
  {
    seq(m, j requires 0 <= j < m => Cell(i, j))
  }

  /** All addresses with all ports, address by address. */
  function Grid(n: u16, m: u16): (ss: seq<Selector>) { if n == 0 then [] else Grid(n - 1, m) + Row(n - 1, m) }

  lemma CellIs(i: u16, j: u16)
    ensures Intersection(Host(i), Port(j)) == Some(Cell(i, j))
  {
  }

  lemma {:induction false} AddRow(selected: seq<Selector>, i: u16, m: u16)
    requires forall x | x in selected :: x.start != V4(i)
    ensures AddAll(selected, Host(i), Ports(m)) == selected + Row(i, m)
  {
    if m > 0 {
      AddRow(selected, i, m - 1);
      assert Ports(m)[..m - 1] == Ports(m - 1);
      CellIs(i, m - 1);
      hide Intersection;
      var part := selected + Row(i, m - 1);
      assert Cell(i, m - 1) !in part;
      assert part + [Cell(i, m - 1)] == selected + Row(i, m);
    }
  }

  lemma {:induction false} GridIs(n: u16, m: u16)
    ensures Gather(Hosts(n), Ports(m)) == Grid(n, m) && |Grid(n, m)| == n * m
    ensures forall x | x in Grid(n, m) :: x.start.V4? && x.start.v4 < n
  {
    hide AddAll;
    if n > 0 {
      GridIs(n - 1, m);
      assert Hosts(n)[..n - 1] == Hosts(n - 1);
      AddRow(Grid(n - 1, m), n - 1, m);
      Product(n, m);
    }
  }

  lemma Product(n: nat, m: nat)
    requires n > 0
    ensures (n - 1) * m + m == n * m
  {
  }

  lemma {:induction false} GridStarts(n: u16, m: u16)
    requires n > 0
    ensures Row(0, m) <= Grid(n, m)
  {
    if n == 1 {
      assert Grid(1, m) == Grid(0, m) + Row(0, m) == Row(0, m);
    } else {
      GridStarts(n - 1, m);
    }
  }

  lemma AnyIsAny()
    ensures Gather([ANY], [ANY]) == [ANY]
  {
    assert [ANY][..0] == [];
    assert Intersection(ANY, ANY) == Some(ANY);
    assert AddAll([], ANY, [ANY]) == AddNew(AddAll([], ANY, []), Some(ANY)) == [ANY];
    assert Gather([ANY], [ANY]) == AddAll(Gather([], [ANY]), ANY, [ANY]);
  }

  function Asks(n: u16): (p: Pair) { Pair(Hosts(n), [ANY]) }

  function Allows(m: u16): (p: Pair) { Pair([ANY], Ports(m)) }

  lemma ListsFit(n: u16, m: u16)
    requires n <= 30 && m <= 30
    ensures OneFamily(Hosts(n)) && OneFamily(Ports(m)) && OneFamily([ANY]) && OneFamily(Grid(n, m))
    ensures Sendable(Hosts(n), [ANY]) && Sendable(Grid(n, m), [ANY])
  {
    assert OneFamily(Hosts(n)) && OneFamily(Ports(m)) && OneFamily([ANY]);
    hide Grid, OneFamily, BodyFits, Hosts, Ports, Gather;
    GridIs(n, m);
    GridFamily(n, m);
    AtMost900(n, m);
    TsFits(true, Hosts(n));
    TsFits(false, [ANY]);
    TsFits(true, Grid(n, m));
  }

  lemma {:induction false} GridFamily(n: u16, m: u16)
    ensures OneFamily(Grid(n, m))
  {
    if n > 0 {
      GridFamily(n - 1, m);
    }
  }

  /** The responder's answer: one selector for each address and port. */
  lemma Answered(n: u16, m: u16)
    requires 0 < n <= 30 && 0 < m <= 30
    ensures Respond(Asks(n), Allows(m), [], []) == Ok(Pair([ANY], Grid(n, m)))
  {
    hide Gather, Grid, BodyFits, OneFamily, Hosts, Ports, Covers, Arriving, Sendable, Respond;
    ListsFit(n, m);
    GridIs(n, m);
    AnyIsAny();
    ArrivingIs(Hosts(n));
    ArrivingIs([ANY]);
    RespondIs(Asks(n), Allows(m), [], []);
    GridNonempty(n, m);
    NarrowExact(Hosts(n), Ports(m));
    NarrowExact([ANY], [ANY]);
  }

  lemma GridNonempty(n: u16, m: u16)
    requires 0 < n && 0 < m
    ensures Grid(n, m) != []
  {
  }

  lemma AtMost900(n: nat, m: nat)
    requires n <= 30 && m <= 30
    ensures n * m <= 900
  {
  }

  /** 16 requested addresses and 16 allowed ports narrow to 256 selectors. The responder succeeds, the count octet
      is zero, and the initiator finds no selectors. */
  lemma SixteenBySixteen()
    ensures var r := Respond(Asks(16), Allows(16), [], []);
      r.Ok? && |r.value.remote| == 256 && Conclude(Asks(16), r.value, [], []).Err?
  {
    hide Respond, Conclude, Grid, Hosts, Ports, Sendable, OneFamily, Covers, Gather;
    Answered(16, 16);
    ListsFit(16, 16);
    GridIs(16, 16);
    ExchangeExact(Asks(16), Allows(16), [], [], [], []);
  }

  /** With 17 addresses the initiator goes on with the first 16 of 272 selectors: both ends succeed, and the
      responder protects packets of the second address that the initiator does not. */
  lemma SeventeenBySixteen()
    ensures var r := Respond(Asks(17), Allows(16), [], []);
      && r.Ok? && |r.value.remote| == 272
      && (var i := Conclude(Asks(17), r.value, [], []); var p := Packet(V4(1), 0, 0);
          i.Ok? && Covers(r.value.remote, p) && !Covers(i.value.local, p))
  {
    hide Respond, Conclude, Grid, Hosts, Ports, Sendable, OneFamily, Covers, Row, Gather, Arriving, SameCover;
    var p := Packet(V4(1), 0, 0);
    Answered(17, 16);
    ListsFit(17, 16);
    GridIs(17, 16);
    FirstRowArrives();
    GridCovers(17, 16);
    ExchangeExact(Asks(17), Allows(16), [], [], [], []);
    var r := Respond(Asks(17), Allows(16), [], []).value;
    SameAt(Conclude(Asks(17), r, [], []).value.local, Row(0, 16), p);
  }

  lemma FirstRowArrives()
    ensures Arriving(Grid(17, 16)) == Row(0, 16) && !Covers(Row(0, 16), Packet(V4(1), 0, 0))
  {
    hide Grid, Gather;
    GridIs(17, 16);
    GridStarts(17, 16);
  }

  lemma SameAt(a: seq<Selector>, b: seq<Selector>, p: Packet)
    requires SameCover(a, b)
    ensures Covers(a, p) == Covers(b, p)
  {
  }

  lemma GridCovers(n: u16, m: u16)
    requires n > 1 && m > 0
    ensures Covers(Grid(n, m), Packet(V4(1), 0, 0))
  {
    GridHas(n, m, 1);
    assert Matches(Cell(1, 0), Packet(V4(1), 0, 0));
  }

  lemma {:induction false} GridHas(n: u16, m: u16, i: u16)
    requires i < n && m > 0
    ensures Cell(i, 0) in Grid(n, m)
  {
    if i == n - 1 {
      assert Row(i, m)[0] == Cell(i, 0);
      assert (Grid(n - 1, m) + Row(i, m))[|Grid(n - 1, m)|] == Cell(i, 0);
    } else {
      GridHas(n - 1, m, i);
    }
  }
}
