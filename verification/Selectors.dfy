/** Traffic selectors and their narrowing (src/ipsec/config.rs, src/ipsec/ikev2/engine.rs; section 2.9 of
    RFC 7296). */
module Selectors {
  import opened Wire
  import opened IkeCodec
  import opened IkeRoundTrip

  datatype Selector = Selector(start: Ip, end: Ip, protocol: u8, startPort: u16, endPort: u16)

  /** One end of a packet: an address with the protocol and port it is used with. */
  datatype Packet = Packet(address: Ip, protocol: u8, port: u16)

  /** The order of addresses: every IPv4 address comes before every IPv6 address. */
  predicate AtMost(a: Ip, b: Ip) {
    match (a, b)
    case (V4(x), V4(y)) => x <= y
    case (V6(x), V6(y)) => x <= y
    case (V4(_), V6(_)) => true
    case (V6(_), V4(_)) => false
  }

  function Max(a: Ip, b: Ip): (m: Ip) { if AtMost(a, b) then b else a }

  function Min(a: Ip, b: Ip): (m: Ip) { if AtMost(a, b) then a else b }

  predicate SameFamily(a: Ip, b: Ip) { a.V4? == b.V4? }

  /** `contains`. */
  predicate Contains(s: Selector, address: Ip) {
    SameFamily(address, s.start) && AtMost(s.start, address) && AtMost(address, s.end)
  }

  /** The packets a selector stands for; protocol 0 is any protocol. */
  predicate Matches(s: Selector, p: Packet) {
    Contains(s, p.address) && (s.protocol == 0 || s.protocol == p.protocol) && s.startPort <= p.port <= s.endPort
  }

  predicate Covers(ss: seq<Selector>, p: Packet) { exists s | s in ss :: Matches(s, p) }

  function Intersection(a: Selector, b: Selector): (r: Option<Selector>) {
    if !SameFamily(a.start, b.start) then None
    else if a.protocol != 0 && b.protocol != 0 && a.protocol != b.protocol then None
    else
      var start, end := Max(a.start, b.start), Min(a.end, b.end);
      var startPort := if a.startPort > b.startPort then a.startPort else b.startPort;
      var endPort := if a.endPort < b.endPort then a.endPort else b.endPort;
      if !AtMost(start, end) || startPort > endPort then None
      else Some(Selector(start, end, if a.protocol == 0 then b.protocol else a.protocol, startPort, endPort))
  }

  /** `is_subset_of`. */
  predicate IsSubsetOf(a: Selector, b: Selector) {
    && SameFamily(a.start, b.start) && (b.protocol == 0 || a.protocol == b.protocol)
    && AtMost(b.start, a.start) && AtMost(a.end, b.end) && a.startPort >= b.startPort && a.endPort <= b.endPort
  }

  /** The intersection stands for exactly the common packets. */
  lemma IntersectionExact(a: Selector, b: Selector, p: Packet)
    ensures Matches(a, p) && Matches(b, p) <==> Intersection(a, b).Some? && Matches(Intersection(a, b).value, p)
  {
  }

  /** It exists only when there are common packets. */
  lemma IntersectionNonempty(a: Selector, b: Selector)
    ensures Intersection(a, b).Some? ==>
      var s := Intersection(a, b).value; Matches(s, Packet(s.start, s.protocol, s.startPort))
  {
  }

  /** For a selector that stands for something, `is_subset_of` holds exactly when its packets are included. */
  lemma SubsetIsInclusion(a: Selector, b: Selector)
    requires SameFamily(a.start, a.end) && AtMost(a.start, a.end) && a.startPort <= a.endPort
    ensures IsSubsetOf(a, b) <==> forall p :: Matches(a, p) ==> Matches(b, p)
  {
    if forall p :: Matches(a, p) ==> Matches(b, p) {
      assert Matches(a, Packet(a.start, a.protocol, a.startPort));
      assert Matches(a, Packet(a.end, a.protocol, a.endPort));
    }
  }

  // ------------------------------------------------------------------ narrow

  function AddNew(selected: seq<Selector>, x: Option<Selector>): (r: seq<Selector>) {
    if x.Some? && x.value !in selected then selected + [x.value] else selected
  }

  /** The inner loop: one requested selector against all configured ones. */
  function AddAll(selected: seq<Selector>, s: Selector, configured: seq<Selector>): (r: seq<Selector>) {
    if configured == [] then selected
    else AddNew(AddAll(selected, s, configured[..|configured| - 1]), Intersection(s, configured[|configured| - 1]))
  }

  function Gather(requested: seq<Selector>, configured: seq<Selector>): (r: seq<Selector>) {
    if requested == [] then []
    else AddAll(Gather(requested[..|requested| - 1], configured), requested[|requested| - 1], configured)
  }

  function Narrow(requested: seq<Selector>, configured: seq<Selector>): (r: Result<seq<Selector>>) {
    if Gather(requested, configured) == [] then Err else Ok(Gather(requested, configured))
  }

  method ComputeNarrow(requested: seq<Selector>, configured: seq<Selector>) returns (r: Result<seq<Selector>>)
    ensures r == Narrow(requested, configured)
  {
    hide Intersection, AddAll;
    var selected: seq<Selector> := [];
    for i := 0 to |requested|
      invariant selected == Gather(requested[..i], configured)
    {
      assert requested[..i + 1][..i] == requested[..i];
      ghost var before := selected;
      AddAllNone(before, requested[i], configured);
      for j := 0 to |configured|
        invariant selected == AddAll(before, requested[i], configured[..j])
      {
        AddAllStep(before, requested[i], configured, j);
        var intersection := Intersection(requested[i], configured[j]);
        if intersection.Some? && intersection.value !in selected {
          selected := selected + [intersection.value];
        }
      }
      assert configured[..|configured|] == configured;
    }
    assert requested[..|requested|] == requested;
    return if selected == [] then Err else Ok(selected);
  }

  lemma AddAllNone(selected: seq<Selector>, s: Selector, configured: seq<Selector>)
    ensures AddAll(selected, s, configured[..0]) == selected
  {
  }

  lemma AddAllStep(selected: seq<Selector>, s: Selector, configured: seq<Selector>, j: nat)
    requires j < |configured|
    ensures AddAll(selected, s, configured[..j + 1])
         == AddNew(AddAll(selected, s, configured[..j]), Intersection(s, configured[j]))
  {
    assert configured[..j + 1][..j] == configured[..j];
  }

  predicate NoDuplicates(ss: seq<Selector>) { forall i, j | 0 <= i < j < |ss| :: ss[i] != ss[j] }

  predicate MeetOf(x: Selector, s: Selector, configured: seq<Selector>) {
    exists a | a in configured :: Intersection(s, a) == Some(x)
  }

  predicate MeetIn(x: Selector, requested: seq<Selector>, configured: seq<Selector>) {
    exists s | s in requested :: MeetOf(x, s, configured)
  }

  lemma AddNewIs(selected: seq<Selector>, x: Option<Selector>)
    requires NoDuplicates(selected)
    ensures NoDuplicates(AddNew(selected, x))
    ensures forall y :: y in AddNew(selected, x) <==> y in selected || x == Some(y)
  {
  }

  lemma {:induction false} AddAllIs(selected: seq<Selector>, s: Selector, configured: seq<Selector>)
    requires NoDuplicates(selected)
    ensures NoDuplicates(AddAll(selected, s, configured))
    ensures forall y :: y in AddAll(selected, s, configured) <==> y in selected || MeetOf(y, s, configured)
  {
    hide Intersection, AddNew, NoDuplicates;
    if configured != [] {
      var n := |configured| - 1;
      var part := AddAll(selected, s, configured[..n]);
      AddAllIs(selected, s, configured[..n]);
      AddNewIs(part, Intersection(s, configured[n]));
      forall y ensures MeetOf(y, s, configured) <==> MeetOf(y, s, configured[..n]) || Intersection(s, configured[n]) == Some(y) {
        MeetSplit(y, s, configured);
      }
    }
  }

  lemma MeetSplit(y: Selector, s: Selector, configured: seq<Selector>)
    requires configured != []
    ensures var n := |configured| - 1;
      MeetOf(y, s, configured) <==> MeetOf(y, s, configured[..n]) || Intersection(s, configured[n]) == Some(y)
  {
    hide Intersection;
    var n := |configured| - 1;
    assert forall a :: a in configured <==> a in configured[..n] || a == configured[n];
  }

  /** What is gathered: every pairwise intersection, each once. */
  lemma {:induction false} GatherIs(requested: seq<Selector>, configured: seq<Selector>)
    ensures NoDuplicates(Gather(requested, configured))
    ensures forall y :: y in Gather(requested, configured) <==> MeetIn(y, requested, configured)
  {
    hide MeetOf, AddAll, NoDuplicates;
    if requested == [] {
      Singles();
    } else {
      var n := |requested| - 1;
      GatherIs(requested[..n], configured);
      AddAllIs(Gather(requested[..n], configured), requested[n], configured);
      assert forall s :: s in requested <==> s in requested[..n] || s == requested[n];
    }
  }

  lemma Singles()
    ensures NoDuplicates([])
  {
  }

  /** `narrow` gives duplicate-free selectors for exactly the packets that are both requested and configured,
      and fails exactly when there are none. */
  lemma NarrowExact(requested: seq<Selector>, configured: seq<Selector>)
    ensures var r := Narrow(requested, configured);
      && (r.Ok? ==>
            && NoDuplicates(r.value)
            && forall p :: Covers(r.value, p) <==> Covers(requested, p) && Covers(configured, p))
      && (r.Err? <==> forall p :: !(Covers(requested, p) && Covers(configured, p)))
  {
    hide Gather, Matches, Intersection, NoDuplicates;
    GatherIs(requested, configured);
    var got := Gather(requested, configured);
    forall p ensures Covers(got, p) <==> Covers(requested, p) && Covers(configured, p) {
      GatherCovers(requested, configured, p);
    }
    if got != [] {
      var x := got[0];
      assert x in got && MeetIn(x, requested, configured);
      var s :| s in requested && MeetOf(x, s, configured);
      var a :| a in configured && Intersection(s, a) == Some(x);
      IntersectionNonempty(s, a);
      assert Covers(got, Packet(x.start, x.protocol, x.startPort));
    } else {
      assert forall p :: !Covers(got, p);
    }
  }

  lemma GatherCovers(requested: seq<Selector>, configured: seq<Selector>, p: Packet)
    requires forall y :: y in Gather(requested, configured) <==> MeetIn(y, requested, configured)
    ensures Covers(Gather(requested, configured), p) <==> Covers(requested, p) && Covers(configured, p)
  {
    hide Gather, Matches, Intersection;
    var got := Gather(requested, configured);
    if Covers(got, p) {
      var x :| x in got && Matches(x, p);
      var s :| s in requested && MeetOf(x, s, configured);
      var a :| a in configured && Intersection(s, a) == Some(x);
      IntersectionExact(s, a, p);
    }
    if Covers(requested, p) && Covers(configured, p) {
      var s :| s in requested && Matches(s, p);
      var a :| a in configured && Matches(a, p);
      IntersectionExact(s, a, p);
      var x := Intersection(s, a).value;
      assert MeetOf(x, s, configured);
      assert MeetIn(x, requested, configured);
    }
  }

  // ---------------------------------------------------------------- exchange

  datatype Pair = Pair(local: seq<Selector>, remote: seq<Selector>)

  function ToWire(s: Selector): (t: TsSelector) {
    TsSelector(if s.start.V4? then 7 else 8, s.protocol, s.startPort, s.endPort, s.start, s.end)
  }

  function FromWire(t: TsSelector): (s: Selector) { Selector(t.start, t.end, t.protocol, t.startPort, t.endPort) }

  function AllToWire(ss: seq<Selector>): (ts: seq<TsSelector>)
    ensures |ts| == |ss|
  {
    seq(|ss|, i requires 0 <= i < |ss| => ToWire(ss[i]))
  }

  function AllFromWire(ts: seq<TsSelector>): (ss: seq<Selector>)
    ensures |ss| == |ts|
  {
    seq(|ts|, i requires 0 <= i < |ts| => FromWire(ts[i]))
  }

  /** What one payload contributes to one side. */
  function Contribution(p: Payload, initiator: bool): (ss: seq<Selector>) {
    if p.Ts? && p.initiator == initiator then AllFromWire(p.selectors) else []
  }

  /** The selectors of all TS payloads of one side, in order. */
  function Collected(ps: seq<Payload>, initiator: bool): (ss: seq<Selector>) {
    if ps == [] then [] else Collected(ps[..|ps| - 1], initiator) + Contribution(ps[|ps| - 1], initiator)
  }

  function TsFromPayloads(ps: seq<Payload>): (r: Result<Pair>) {
    var local, remote := Collected(ps, true), Collected(ps, false);
    if local == [] || remote == [] then Err else Ok(Pair(local, remote))
  }

  method ComputeTsFromPayloads(ps: seq<Payload>) returns (r: Result<Pair>)
    ensures r == TsFromPayloads(ps)
  {
    hide AllFromWire;
    var local: seq<Selector> := [];
    var remote: seq<Selector> := [];
    for i := 0 to |ps|
      invariant local == Collected(ps[..i], true) && remote == Collected(ps[..i], false)
    {
      assert ps[..i + 1][..i] == ps[..i];
      if ps[i].Ts? {
        var ss := Converted(ps[i].selectors);
        if ps[i].initiator {
          local := local + ss;
        } else {
          remote := remote + ss;
        }
      }
    }
    assert ps[..|ps|] == ps;
    return if local == [] || remote == [] then Err else Ok(Pair(local, remote));
  }

  method Converted(ts: seq<TsSelector>) returns (ss: seq<Selector>)
    ensures ss == AllFromWire(ts)
  {
    ss := [];
    for j := 0 to |ts|
      invariant ss == AllFromWire(ts)[..j]
    {
      ss := ss + [FromWire(ts[j])];
    }
  }

  /** The responder's view of a request: TSi is the peer's local side, our remote one. */
  function NarrowRequest(configured: Pair, ps: seq<Payload>): (r: Result<Pair>) {
    var peer :- TsFromPayloads(ps);
    var local :- Narrow(peer.remote, configured.local);
    var remote :- Narrow(peer.local, configured.remote);
    Ok(Pair(local, remote))
  }

  function NarrowResponse(configured: Pair, ps: seq<Payload>): (r: Result<Pair>) {
    var selected :- TsFromPayloads(ps);
    var local :- Narrow(selected.local, configured.local);
    var remote :- Narrow(selected.remote, configured.remote);
    Ok(Pair(local, remote))
  }

  /** A message that carries the two lists in its TS payloads and no other TS payload. */
  function WithTs(before: seq<Payload>, tsi: seq<Selector>, tsr: seq<Selector>, after: seq<Payload>): (ps: seq<Payload>) {
    before + [Ts(true, AllToWire(tsi)), Ts(false, AllToWire(tsr))] + after
  }

  predicate NoTs(ps: seq<Payload>) { forall p | p in ps :: !p.Ts? }

  lemma {:induction false} CollectedNone(ps: seq<Payload>, initiator: bool)
    requires NoTs(ps)
    ensures Collected(ps, initiator) == []
  {
    if ps != [] {
      CollectedNone(ps[..|ps| - 1], initiator);
    }
  }

  lemma {:induction false} CollectedConcat(a: seq<Payload>, b: seq<Payload>, initiator: bool)
    ensures Collected(a + b, initiator) == Collected(a, initiator) + Collected(b, initiator)
  {
    hide Contribution;
    if b == [] {
      assert a + b == a;
      assert Collected(a, initiator) + [] == Collected(a, initiator);
    } else {
      var n := |b| - 1;
      CollectedConcat(a, b[..n], initiator);
      CollectedLast(a + b, initiator);
      CollectedLast(b, initiator);
      hide Collected;
      assert (a + b)[..|a + b| - 1] == a + b[..n] && (a + b)[|a + b| - 1] == b[n];
      var x, y, z := Collected(a, initiator), Collected(b[..n], initiator), Contribution(b[n], initiator);
      assert x + y + z == x + (y + z);
    }
  }

  lemma CollectedLast(ps: seq<Payload>, initiator: bool)
    requires ps != []
    ensures Collected(ps, initiator) == Collected(ps[..|ps| - 1], initiator) + Contribution(ps[|ps| - 1], initiator)
  {
  }

  lemma WireAndBack(ss: seq<Selector>)
    ensures AllFromWire(AllToWire(ss)) == ss
  {
  }

  lemma TsCollected(before: seq<Payload>, tsi: seq<Selector>, tsr: seq<Selector>, after: seq<Payload>)
    requires NoTs(before) && NoTs(after)
    ensures forall side :: Collected(WithTs(before, tsi, tsr, after), side) == if side then tsi else tsr
  {
    var i, r := Ts(true, AllToWire(tsi)), Ts(false, AllToWire(tsr));
    WireAndBack(tsi);
    WireAndBack(tsr);
    hide AllFromWire, AllToWire;
    forall side: bool
      ensures Collected(WithTs(before, tsi, tsr, after), side) == if side then tsi else tsr
    {
      CollectedNone(before, side);
      CollectedNone(after, side);
      CollectedConcat(before + [i, r], after, side);
      CollectedConcat(before, [i, r], side);
      assert [i, r][..1] == [i] && [i][..0] == [];
      assert Collected([i], side) == if side then tsi else [];
      assert Collected([i, r], side) == if side then tsi else tsr;
    }
  }

  lemma TsFound(before: seq<Payload>, tsi: seq<Selector>, tsr: seq<Selector>, after: seq<Payload>)
    requires NoTs(before) && NoTs(after) && tsi != [] && tsr != []
    ensures TsFromPayloads(WithTs(before, tsi, tsr, after)) == Ok(Pair(tsi, tsr))
  {
    TsCollected(before, tsi, tsr, after);
  }

  ghost predicate SameCover(a: seq<Selector>, b: seq<Selector>) { forall p :: Covers(a, p) <==> Covers(b, p) }

  ghost predicate Disjoint(a: seq<Selector>, b: seq<Selector>) { forall p :: !(Covers(a, p) && Covers(b, p)) }

  /** `r` covers what both `a` and `b` cover. */
  ghost predicate IsMeet(a: seq<Selector>, b: seq<Selector>, r: seq<Selector>) {
    forall p :: Covers(r, p) <==> Covers(a, p) && Covers(b, p)
  }

  // -------------------------------------------------------------- on the wire

  predicate OneFamily(ss: seq<Selector>) { forall s | s in ss :: SameFamily(s.start, s.end) }

  lemma WireFits(ss: seq<Selector>)
    requires OneFamily(ss)
    ensures forall t | t in AllToWire(ss) :: SelectorFits(t)
  {
    var ts := AllToWire(ss);
    forall t | t in ts ensures SelectorFits(t) {
      var k :| 0 <= k < |ts| && ts[k] == t;
      assert ss[k] in ss;
    }
  }

  lemma {:induction false} SelectorsLen(ts: seq<TsSelector>)
    requires SelectorsBytes(ts).Ok?
    ensures |SelectorsBytes(ts).value| <= 40 * |ts|
  {
    if ts != [] {
      hide BE;
      SelectorsLen(ts[1..]);
    }
  }

  /** What the count octet leaves of a list. */
  function Arriving(ss: seq<Selector>): (r: seq<Selector>) { ss[..|ss| % 256] }

  lemma SelectorsSplit(ts: seq<TsSelector>)
    requires ts != [] && SelectorFits(ts[0]) && SelectorsBytes(ts[1..]).Ok?
    ensures AddressBytes(ts[0]).Ok?
    ensures SelectorsBytes(ts) == Ok(SelectorHead(ts[0]) + AddressBytes(ts[0]).value + SelectorsBytes(ts[1..]).value)
  {
    hide BE, SelectorHead;
  }

  lemma {:induction false} ReadSome(ts: seq<TsSelector>, count: nat)
    requires (forall t | t in ts :: SelectorFits(t)) && count <= |ts|
    ensures SelectorsBytes(ts).Ok? && ReadSelectors(count, SelectorsBytes(ts).value) == Ok(ts[..count])
  {
    hide SelectorFits, AddressBytes, SelectorsBytes, ReadSelectors, SelectorHead;
    SelectorsRoundTrip(ts);
    if count == 0 {
      ReadNone(SelectorsBytes(ts).value);
    } else {
      assert SelectorFits(ts[0]);
      ReadSome(ts[1..], count - 1);
      SelectorsSplit(ts);
      SelectorStep(ts[0], count - 1, SelectorsBytes(ts[1..]).value);
      assert ts[..count] == [ts[0]] + ts[1..][..count - 1];
    }
  }

  lemma ReadNone(b: bytes)
    ensures ReadSelectors(0, b) == Ok([])
  {
  }

  lemma ArrivingIs(ss: seq<Selector>)
    ensures |Arriving(ss)| == |ss| % 256 && (Arriving(ss) == ss <==> |ss| <= 255)
    ensures AllToWire(ss)[..|ss| % 256] == AllToWire(Arriving(ss))
  {
  }

  /** A TS payload reads back as the selectors its count octet still counts: the whole list exactly when it is
      at most 255 long. */
  lemma TsReadsBack(side: bool, ss: seq<Selector>, next: u8)
    requires OneFamily(ss)
    ensures var p := Ts(side, AllToWire(ss));
      Body(p).Ok? && ReadBody(Kind(p), Body(p).value, next) == Ok(Ts(side, AllToWire(Arriving(ss))))
    ensures Arriving(ss) == ss <==> |ss| <= 255
  {
    hide SelectorsBytes, AllToWire, ReadSelectors, ReadTs, Arriving, SelectorFits, OneFamily;
    var ts, n := AllToWire(ss), |ss| % 256;
    WireFits(ss);
    ReadSome(ts, n);
    ArrivingIs(ss);
    ReadTsIs(side, n, SelectorsBytes(ts).value);
  }

  /** Up to 1600 selectors fit a payload. */
  lemma TsFits(side: bool, ss: seq<Selector>)
    requires OneFamily(ss) && |ss| <= 1600
    ensures BodyFits(Ts(side, AllToWire(ss)))
  {
    hide SelectorsBytes, AllToWire, SelectorFits, OneFamily;
    var ts := AllToWire(ss);
    WireFits(ss);
    SelectorsRoundTrip(ts);
    SelectorsLen(ts);
  }

  /** Narrowing keeps each selector within one address family. */
  lemma NarrowOneFamily(requested: seq<Selector>, configured: seq<Selector>)
    requires OneFamily(requested) && OneFamily(configured)
    ensures Narrow(requested, configured).Ok? ==> OneFamily(Narrow(requested, configured).value)
  {
    GatherIs(requested, configured);
    hide Gather;
    var got := Gather(requested, configured);
    forall x | x in got ensures SameFamily(x.start, x.end) {
      var s :| s in requested && MeetOf(x, s, configured);
      var a :| a in configured && Intersection(s, a) == Some(x);
      assert SameFamily(s.start, s.end) && SameFamily(a.start, a.end);
    }
  }

  /** What the other end reads of a chain of payloads. */
  function OverTheWire(ps: seq<Payload>): (r: Result<seq<Payload>>) {
    var b :- Chain(ps);
    ReadChain(FirstKind(ps), b)
  }

  /** `p`, sent in a chain, is read as `q`. */
  ghost predicate ReadsAs(p: Payload, q: Payload) {
    Kind(p) != 0 && Kind(p) != SK && BodyFits(p) && forall next :: ReadBody(Kind(p), Body(p).value, next) == Ok(q)
  }

  ghost predicate AllReadAs(ps: seq<Payload>, qs: seq<Payload>) {
    |qs| == |ps| && forall i | 0 <= i < |ps| :: ReadsAs(ps[i], qs[i])
  }

  lemma {:induction false} ChainReadsAs(ps: seq<Payload>, qs: seq<Payload>)
    requires AllReadAs(ps, qs)
    ensures OverTheWire(ps) == Ok(qs)
  {
    hide Body, ReadBody, ReadChain, Kind;
    if ps == [] {
      EmptyChain();
    } else {
      assert forall i | 0 <= i < |ps| - 1 :: ps[1..][i] == ps[i + 1] && qs[1..][i] == qs[i + 1];
      ChainReadsAs(ps[1..], qs[1..]);
      assert ReadsAs(ps[0], qs[0]);
      ChainStep(Kind(ps[0]), FirstKind(ps[1..]), Body(ps[0]).value, Chain(ps[1..]).value);
      assert qs == [qs[0]] + qs[1..];
    }
  }

  lemma {:induction false} ChainTooLong(ps: seq<Payload>, i: nat)
    requires i < |ps| && !BodyFits(ps[i])
    ensures Chain(ps) == Err
  {
    hide Body;
    if i > 0 {
      ChainTooLong(ps[1..], i - 1);
    }
  }

  lemma OthersReadBack(p: Payload)
    requires PayloadFits(p) && BodyFits(p)
    ensures ReadsAs(p, p)
  {
    KindIsNotNone(p);
    hide Body, ReadBody, PayloadFits, Kind;
    forall next: u8 ensures ReadBody(Kind(p), Body(p).value, next) == Ok(p) {
      PayloadRoundTrip(p, next);
    }
  }

  lemma TsReadsAs(side: bool, ss: seq<Selector>)
    requires OneFamily(ss) && BodyFits(Ts(side, AllToWire(ss)))
    ensures ReadsAs(Ts(side, AllToWire(ss)), Ts(side, AllToWire(Arriving(ss))))
  {
    hide Body, ReadBody, AllToWire, Arriving;
    var p, q := Ts(side, AllToWire(ss)), Ts(side, AllToWire(Arriving(ss)));
    forall next: u8 ensures ReadBody(Kind(p), Body(p).value, next) == Ok(q) {
      TsReadsBack(side, ss, next);
    }
  }

  /** Whether both TS payloads fit their 16-bit length fields; otherwise nothing is sent. */
  predicate Sendable(tsi: seq<Selector>, tsr: seq<Selector>) {
    BodyFits(Ts(true, AllToWire(tsi))) && BodyFits(Ts(false, AllToWire(tsr)))
  }

  /** A message with two selector lists arrives with both of them cut to their length modulo 256. */
  lemma TsArrives(before: seq<Payload>, tsi: seq<Selector>, tsr: seq<Selector>, after: seq<Payload>)
    requires ChainFits(before) && ChainFits(after) && OneFamily(tsi) && OneFamily(tsr)
    ensures OverTheWire(WithTs(before, tsi, tsr, after))
         == if Sendable(tsi, tsr) then Ok(WithTs(before, Arriving(tsi), Arriving(tsr), after)) else Err
  {
    hide BodyFits, PayloadFits, AllToWire, Arriving, ReadsAs, OneFamily, Chain, ReadChain;
    var ps, qs := WithTs(before, tsi, tsr, after), WithTs(before, Arriving(tsi), Arriving(tsr), after);
    var n := |before|;
    assert ps[n] == Ts(true, AllToWire(tsi)) && ps[n + 1] == Ts(false, AllToWire(tsr));
    if Sendable(tsi, tsr) {
      TsReadsAs(true, tsi);
      TsReadsAs(false, tsr);
      forall i | 0 <= i < |ps| ensures ReadsAs(ps[i], qs[i]) {
        if i < n {
          assert ps[i] == before[i] == qs[i] && before[i] in before;
          OthersReadBack(ps[i]);
        } else if i >= n + 2 {
          assert ps[i] == after[i - n - 2] == qs[i] && after[i - n - 2] in after;
          OthersReadBack(ps[i]);
        }
      }
      ChainReadsAs(ps, qs);
    } else if !BodyFits(ps[n]) {
      ChainTooLong(ps, n);
    } else {
      ChainTooLong(ps, n + 1);
    }
  }

  // ------------------------------------------------------------- one exchange

  lemma NoneCovered(p: Packet)
    ensures !Covers([], p)
  {
  }

  lemma SomethingCovered(requested: seq<Selector>, configured: seq<Selector>, x: Selector)
    requires x in Gather(requested, configured)
    ensures Matches(x, Packet(x.start, x.protocol, x.startPort))
  {
    GatherIs(requested, configured);
    hide Gather, Intersection, Matches;
    var s :| s in requested && MeetOf(x, s, configured);
    var a :| a in configured && Intersection(s, a) == Some(x);
    IntersectionNonempty(s, a);
  }

  /** What the responder makes of the request as it arrives. */
  function Respond(initiator: Pair, responder: Pair, a: seq<Payload>, b: seq<Payload>): (r: Result<Pair>) {
    var request :- OverTheWire(WithTs(a, initiator.local, initiator.remote, b));
    NarrowRequest(responder, request)
  }

  /** What the initiator makes of the response as it arrives. */
  function Conclude(initiator: Pair, r: Pair, a: seq<Payload>, b: seq<Payload>): (i: Result<Pair>) {
    var response :- OverTheWire(WithTs(a, r.remote, r.local, b));
    NarrowResponse(initiator, response)
  }

  lemma RespondIs(initiator: Pair, responder: Pair, a: seq<Payload>, b: seq<Payload>)
    requires ChainFits(a) && ChainFits(b) && NoTs(a) && NoTs(b) && OneFamily(initiator.local) && OneFamily(initiator.remote)
    requires Sendable(initiator.local, initiator.remote)
    ensures var l, m := Arriving(initiator.local), Arriving(initiator.remote); var r := Respond(initiator, responder, a, b);
      && (r.Err? <==> Disjoint(l, responder.remote) || Disjoint(m, responder.local))
      && (r.Ok? ==> Narrow(m, responder.local) == Ok(r.value.local) && Narrow(l, responder.remote) == Ok(r.value.remote))
  {
    hide OneFamily, ChainFits, NoTs, Arriving, OverTheWire, WithTs, Covers, TsFromPayloads, Narrow, Sendable;
    var l, m := Arriving(initiator.local), Arriving(initiator.remote);
    TsArrives(a, initiator.local, initiator.remote, b);
    NarrowExact(m, responder.local);
    NarrowExact(l, responder.remote);
    if l != [] && m != [] {
      TsFound(a, l, m, b);
    } else {
      TsMissing(a, l, m, b);
      forall p ensures !Covers([], p) {
        NoneCovered(p);
      }
    }
  }

  lemma TsMissing(before: seq<Payload>, tsi: seq<Selector>, tsr: seq<Selector>, after: seq<Payload>)
    requires NoTs(before) && NoTs(after) && (tsi == [] || tsr == [])
    ensures TsFromPayloads(WithTs(before, tsi, tsr, after)) == Err
  {
    TsCollected(before, tsi, tsr, after);
  }

  /** One IKE_AUTH exchange over the wire, whatever the lengths of the lists. The responder works on what arrives
      of the request. Once it has answered, the initiator fails exactly when a narrowed list is a multiple of 256
      long, and otherwise covers exactly what arrives of the narrowed lists. */
  lemma ExchangeExact(
    initiator: Pair, responder: Pair, a: seq<Payload>, b: seq<Payload>, a': seq<Payload>, b': seq<Payload>)
    requires ChainFits(a) && ChainFits(b) && NoTs(a) && NoTs(b)
    requires ChainFits(a') && ChainFits(b') && NoTs(a') && NoTs(b')
    requires OneFamily(initiator.local) && OneFamily(initiator.remote)
    requires OneFamily(responder.local) && OneFamily(responder.remote)
    requires Sendable(initiator.local, initiator.remote)
    ensures var l, m := Arriving(initiator.local), Arriving(initiator.remote); var r := Respond(initiator, responder, a, b);
      && (r.Err? <==> Disjoint(l, responder.remote) || Disjoint(m, responder.local))
      && (r.Ok? && Sendable(r.value.remote, r.value.local) ==>
            var i := Conclude(initiator, r.value, a', b');
            && IsMeet(l, responder.remote, r.value.remote) && IsMeet(m, responder.local, r.value.local)
            && (i.Err? <==> |r.value.remote| % 256 == 0 || |r.value.local| % 256 == 0)
            && (i.Ok? ==> SameCover(i.value.local, Arriving(r.value.remote)) && SameCover(i.value.remote, Arriving(r.value.local))))
  {
    hide OneFamily, ChainFits, NoTs, Covers, Narrow, Sendable, Respond, Conclude, Arriving;
    var l, m := Arriving(initiator.local), Arriving(initiator.remote);
    var r := Respond(initiator, responder, a, b);
    RespondIs(initiator, responder, a, b);
    ArrivingFamily(initiator.local);
    ArrivingFamily(initiator.remote);
    NarrowExact(m, responder.local);
    NarrowExact(l, responder.remote);
    if r.Ok? && Sendable(r.value.remote, r.value.local) {
      NarrowOneFamily(l, responder.remote);
      NarrowOneFamily(m, responder.local);
      ConcludeIs(initiator, responder, r.value, a', b');
    }
  }

  lemma ConcludeIs(initiator: Pair, responder: Pair, r: Pair, a: seq<Payload>, b: seq<Payload>)
    requires ChainFits(a) && ChainFits(b) && NoTs(a) && NoTs(b)
    requires OneFamily(r.local) && OneFamily(r.remote) && Sendable(r.remote, r.local)
    requires Narrow(Arriving(initiator.local), responder.remote) == Ok(r.remote)
    requires Narrow(Arriving(initiator.remote), responder.local) == Ok(r.local)
    ensures var i := Conclude(initiator, r, a, b);
      && (i.Err? <==> |r.remote| % 256 == 0 || |r.local| % 256 == 0)
      && (i.Ok? ==> SameCover(i.value.local, Arriving(r.remote)) && SameCover(i.value.remote, Arriving(r.local)))
  {
    hide OneFamily, ChainFits, NoTs, Covers, TsFromPayloads, Narrow, Sendable, OverTheWire, WithTs, Arriving, SameCover;
    TsArrives(a, r.remote, r.local, b);
    NarrowArriving(initiator.local, responder.remote, r.remote);
    NarrowArriving(initiator.remote, responder.local, r.local);
    ArrivingIs(r.remote);
    ArrivingIs(r.local);
    var remote, local := Arriving(r.remote), Arriving(r.local);
    if remote != [] && local != [] {
      TsFound(a, remote, local, b);
    } else {
      TsMissing(a, remote, local, b);
    }
  }

  lemma ArrivingFamily(ss: seq<Selector>)
    requires OneFamily(ss)
    ensures OneFamily(Arriving(ss))
  {
    forall s | s in Arriving(ss) ensures SameFamily(s.start, s.end) {
      assert s in ss;
    }
  }

  /** What arrives of a narrowed list lies within the initiator's configuration. */
  lemma NarrowArriving(configured: seq<Selector>, peer: seq<Selector>, offered: seq<Selector>)
    requires Narrow(Arriving(configured), peer) == Ok(offered)
    ensures Narrow(Arriving(offered), configured).Err? <==> Arriving(offered) == []
    ensures Arriving(offered) != [] ==> SameCover(Narrow(Arriving(offered), configured).value, Arriving(offered))
  {
    NarrowExact(Arriving(configured), peer);
    NarrowExact(Arriving(offered), configured);
    forall p ensures Covers(Arriving(offered), p) ==> Covers(offered, p) {
    }
    forall p ensures Covers(Arriving(configured), p) ==> Covers(configured, p) {
    }
    if Arriving(offered) != [] {
      var x := Arriving(offered)[0];
      assert x in Arriving(offered) && x in offered;
      SomethingCovered(Arriving(configured), peer, x);
      assert Covers(Arriving(offered), Packet(x.start, x.protocol, x.startPort));
    }
    hide Narrow, Covers;
    if Arriving(offered) == [] {
      forall p ensures !Covers(Arriving(offered), p) {
        NoneCovered(p);
      }
    }
  }

  /** With request and narrowed lists of at most 255 selectors the two ends agree: the responder fails exactly
      when one of the two directions has no common packet; once it succeeds the initiator does too, and each
      side's local packets are exactly the other side's remote ones, those both configurations allow. */
  lemma BothEndsAgree(
    initiator: Pair, responder: Pair, a: seq<Payload>, b: seq<Payload>, a': seq<Payload>, b': seq<Payload>)
    requires ChainFits(a) && ChainFits(b) && NoTs(a) && NoTs(b)
    requires ChainFits(a') && ChainFits(b') && NoTs(a') && NoTs(b')
    requires OneFamily(initiator.local) && OneFamily(initiator.remote)
    requires OneFamily(responder.local) && OneFamily(responder.remote)
    requires |initiator.local| <= 255 && |initiator.remote| <= 255
    ensures var r := Respond(initiator, responder, a, b);
      && (r.Err? <==> Disjoint(initiator.local, responder.remote) || Disjoint(initiator.remote, responder.local))
      && (r.Ok? && |r.value.local| <= 255 && |r.value.remote| <= 255 ==>
            var i := Conclude(initiator, r.value, a', b');
            && i.Ok? && SameCover(i.value.local, r.value.remote) && SameCover(i.value.remote, r.value.local)
            && IsMeet(initiator.local, responder.remote, r.value.remote)
            && IsMeet(initiator.remote, responder.local, r.value.local))
  {
    hide ChainFits, NoTs, Covers, Respond, Conclude, Sendable;
    ShortIsWhole(initiator.local, initiator.remote);
    RespondIs(initiator, responder, a, b);
    ExchangeExact(initiator, responder, a, b, a', b');
    var r := Respond(initiator, responder, a, b);
    if r.Ok? && |r.value.local| <= 255 && |r.value.remote| <= 255 {
      NarrowOneFamily(initiator.local, responder.remote);
      NarrowOneFamily(initiator.remote, responder.local);
      ShortIsWhole(r.value.remote, r.value.local);
    }
  }

  lemma ShortIsWhole(tsi: seq<Selector>, tsr: seq<Selector>)
    requires OneFamily(tsi) && OneFamily(tsr) && |tsi| <= 255 && |tsr| <= 255
    ensures Sendable(tsi, tsr) && Arriving(tsi) == tsi && Arriving(tsr) == tsr
  {
    hide OneFamily, BodyFits, AllToWire, Arriving;
    TsFits(true, tsi);
    TsFits(false, tsr);
    ArrivingIs(tsi);
    ArrivingIs(tsr);
  }
}
