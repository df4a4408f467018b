/** Key server election: each picks the minimum, in any peer order, and two exchange rounds converge. */
module MkaElection {
  import opened Wire
  import opened Mkpdu
  import opened Mka
  import opened MkaInvariant
  import opened MkaEffects
  import opened MkaRuns

  predicate Stands(p: Peer) { p.live && p.keyServer }

  function CandidateOf(p: Peer): (c: Candidate) { Candidate(p.priority, p.sci, false) }

  /** `r` is the own candidate or stands in the list, and nobody beats it; the own one wins ties. */
  predicate IsBest(own: Option<Candidate>, peers: seq<Peer>, r: Option<Candidate>) {
    && (r.None? ==> own.None? && forall p | p in peers :: !Stands(p))
    && (r.Some? ==>
          && (r == own || exists p | p in peers :: Stands(p) && r.value == CandidateOf(p))
          && (forall p | p in peers :: Stands(p) ==> !Better(CandidateOf(p), r.value))
          && (own.Some? ==> r == own || Better(r.value, own.value)))
  }

  lemma {:induction false} BestOfIsBest(own: Option<Candidate>, peers: seq<Peer>)
    ensures IsBest(own, peers, BestOf(own, peers))
  {
    if peers != [] {
      var rest, p := peers[..|peers| - 1], peers[|peers| - 1];
      BestOfIsBest(own, rest);
      var r := BestOf(own, peers);
      assert forall q | q in peers :: q in rest || q == p;
      if r.Some? && r != own && r == BestOf(own, rest) {
        var q :| q in rest && Stands(q) && r.value == CandidateOf(q);
        assert q in peers;
      } else if r.Some? && r != own {
        assert Stands(p) && p in peers && r.value == CandidateOf(p);
      }
    }
  }

  lemma BestIsUnique(own: Option<Candidate>, peers: seq<Peer>, a: Option<Candidate>, b: Option<Candidate>)
    requires own.Some? ==> own.value.own
    requires IsBest(own, peers, a) && IsBest(own, peers, b)
    ensures a == b
  {
  }

  /** The outcome of an election does not depend on the order of the peer list. */
  lemma ElectionIgnoresOrder(s: State, peers: seq<Peer>)
    requires multiset(peers) == multiset(s.peers)
    ensures Elect(s.(peers := peers)).role == Elect(s).role
  {
    var own := OwnCandidate(s.cfg);
    BestOfIsBest(own, s.peers);
    BestOfIsBest(own, peers);
    forall p ensures p in peers <==> p in s.peers {
      assert p in peers <==> p in multiset(peers);
      assert p in s.peers <==> p in multiset(s.peers);
    }
    assert IsBest(own, s.peers, BestOf(own, peers));
    BestIsUnique(own, s.peers, BestOf(own, s.peers), BestOf(own, peers));
  }

  // ------------------------------------------------------------ one participant

  /** The role is what the election over the current records gives. */
  predicate Decided(s: State) {
    var best := BestOf(OwnCandidate(s.cfg), s.peers);
    && s.role.isKeyServer == (best.Some? && best.value.own)
    && s.role.serverSci == if best.Some? then best.value.sci else 0
  }

  lemma {:induction false} SameBest(own: Option<Candidate>, a: seq<Peer>, b: seq<Peer>)
    requires |a| == |b| && forall j | 0 <= j < |a| :: AdvertOf(a[j]) == AdvertOf(b[j])
    ensures BestOf(own, a) == BestOf(own, b)
  {
    if a != [] {
      var n := |a| - 1;
      assert AdvertOf(a[n]) == AdvertOf(b[n]);
      SameBest(own, a[..n], b[..n]);
    }
  }

  /** An MKPDU that is taken ends with an election over what is then recorded. */
  lemma TakenDecides(c: Crypto, s: State, p: Mkpdu, env: Env)
    requires Accepts(s, p.basic) && !Collides(s, p)
    ensures Decided(HandlePdu(c, s, p, env))
  {
    hide Accepts, Collides, Process, Hear, Record, Decided;
    var i := FindPeer(s.peers, p.basic.mi);
    var known := Record(s, p.basic, env.now);
    TakenIs(c, s, p, env);
    ProcessVote(c, known, i, p, env);
    HearDecides(known, i, p, env.now);
    SameVoteDecides(Hear(known, i, p, env.now), Process(c, known, i, p, env));
  }

  lemma TakenIs(c: Crypto, s: State, p: Mkpdu, env: Env)
    requires Accepts(s, p.basic) && !Collides(s, p)
    ensures HandlePdu(c, s, p, env)
         == Process(c, Record(s, p.basic, env.now), FindPeer(s.peers, p.basic.mi), p, env)
  {
    hide Process;
    CollidesAfterRecord(s, p, env.now);
  }

  lemma HearDecides(s: State, i: nat, p: Mkpdu, now: nat)
    requires i < |s.peers|
    ensures Decided(Hear(s, i, p, now))
  {
    hide MarkLive, LearnPeers, BestOf, OwnCandidate;
  }

  lemma SameVoteDecides(s: State, r: State)
    requires Decided(s) && SameVote(s, r)
    ensures Decided(r)
  {
    SameBest(OwnCandidate(s.cfg), s.peers, r.peers);
    hide BestOf;
  }

  // ------------------------------------------------------------------- a group

  function Sci(s: State): (sci: u64) { ActorSci(s.cfg.mac) }

  /** `s` holds a live record of `t`, whatever SCI, priority and flag it states. */
  predicate Knows(s: State, t: State) {
    HasRecord(s, t.mi) && s.peers[FindPeer(s.peers, t.mi)].live
  }

  /** Everybody `s` counts as live belongs to the group. */
  predicate OnlyMembers(group: seq<State>, s: State) {
    forall p | p in s.peers :: p.live ==> exists j | 0 <= j < |group| :: group[j].mi == p.mi
  }

  /** And it has not recorded an MN that `t` is still to send. */
  predicate KnowsBehind(s: State, t: State) { Knows(s, t) && MnOf(s, t.mi) < t.mn }

  /** Different participants of one CAK, all mutually live. */
  predicate Acquainted(c: Crypto, group: seq<State>) {
    && (forall i, j | 0 <= i < j < |group| :: group[i].mi != group[j].mi && group[i].cfg.mac != group[j].cfg.mac)
    && (forall i, j | 0 <= i < |group| && 0 <= j < |group| :: group[i].cfg.ckn == group[j].cfg.ckn)
    && (forall i | 0 <= i < |group| :: Inv(c, group[i]) && OnlyMembers(group, group[i]))
    && (forall i, j | 0 <= i < |group| && 0 <= j < |group| && i != j :: KnowsBehind(group[i], group[j]))
  }

  /** Nobody's MN wraps in the next `n` sends. */
  predicate MnRoom(group: seq<State>, n: nat) {
    forall i | 0 <= i < |group| :: group[i].mn + n <= 0xffff_ffff
  }

  /** Participant `i` handles the MKPDUs of the others in the given order, each at its own time. */
  function Handle(c: Crypto, group: seq<State>, s: State, order: seq<(nat, Env)>): (r: State)
    requires forall k | 0 <= k < |order| :: order[k].0 < |group|
  {
    if order == [] then s
    else
      var (j, env) := order[|order| - 1];
      HandlePdu(c, Handle(c, group, s, order[..|order| - 1]), Pdu(group[j]), env)
  }

  predicate Includes(order: seq<(nat, Env)>, j: nat) { exists k | 0 <= k < |order| :: order[k].0 == j }

  /** Everybody else's MKPDU is handled, in any order and any number of times. */
  predicate Full(n: nat, i: nat, order: seq<(nat, Env)>) {
    && (forall k | 0 <= k < |order| :: order[k].0 < n && order[k].0 != i)
    && (forall j | 0 <= j < n && j != i :: Includes(order, j))
  }

  predicate AllFull(n: nat, orders: seq<seq<(nat, Env)>>) {
    |orders| == n && forall i | 0 <= i < n :: Full(n, i, orders[i])
  }

  /** Everybody sends one MKPDU, then everybody handles what the others sent. */
  function Round(c: Crypto, group: seq<State>, orders: seq<seq<(nat, Env)>>): (r: seq<State>)
    requires AllFull(|group|, orders)
    ensures |r| == |group|
  {
    seq(|group|, i requires 0 <= i < |group| => assert Full(|group|, i, orders[i]); Handle(c, group, Sent(group[i]), orders[i]))
  }

  /** Participant `j`'s record at `s` is from its MKPDU of this round and so states the truth. */
  predicate Fresh(group: seq<State>, s: State, j: nat)
    requires j < |group|
  {
    && HasRecord(s, group[j].mi) && MnOf(s, group[j].mi) == group[j].mn
    && (var p := s.peers[FindPeer(s.peers, group[j].mi)];
        && p.sci == Sci(group[j]) && p.priority == group[j].cfg.priority
        && p.keyServer == group[j].role.isKeyServer && p.capability == 2)
  }

  predicate AllFresh(group: seq<State>, i: nat, s: State) {
    forall j | 0 <= j < |group| && j != i :: Fresh(group, s, j)
  }

  /** Participant `i` in the middle of a round. */
  predicate Midway(c: Crypto, group: seq<State>, i: nat, s: State)
    requires i < |group|
  {
    && s.cfg == group[i].cfg && s.mi == group[i].mi && s.mn == group[i].mn + 1
    && Inv(c, s) && OnlyMembers(group, s)
    && (forall j | 0 <= j < |group| && j != i :: Heeds(group, s, j))
  }

  /** Participant `j`'s MKPDU of this round is still news to `s`. */
  predicate Behind(group: seq<State>, s: State, j: nat)
    requires j < |group|
  {
    HasRecord(s, group[j].mi) && MnOf(s, group[j].mi) < group[j].mn
  }

  predicate Heeds(group: seq<State>, s: State, j: nat)
    requires j < |group|
  {
    Knows(s, group[j]) && (Behind(group, s, j) || Fresh(group, s, j))
  }

  // ------------------------------------------------------- what an MKPDU lists

  lemma {:induction false} SelectFrom(peers: seq<Peer>, live: bool)
    ensures forall p | p in Select(peers, live) :: p in peers
  {
    if peers != [] {
      SelectFrom(peers[..|peers| - 1], live);
    }
  }

  /** Not preferred, then later or equal. */
  ghost predicate IsOrder(before: (Peer, Peer) -> bool) {
    && (forall a, b :: before(a, b) ==> !before(b, a))
    && (forall a, b, d :: !before(b, a) && !before(d, b) ==> !before(d, a))
  }

  ghost predicate Ordered(peers: seq<Peer>, before: (Peer, Peer) -> bool) {
    forall i, j | 0 <= i < j < |peers| :: !before(peers[j], peers[i])
  }

  lemma {:induction false} InsertHas(p: Peer, sorted: seq<Peer>, before: (Peer, Peer) -> bool)
    ensures multiset(Insert(p, sorted, before)) == multiset(sorted) + multiset{p}
  {
    if sorted != [] && !before(p, sorted[0]) {
      InsertHas(p, sorted[1..], before);
      assert sorted == [sorted[0]] + sorted[1..];
    }
  }

  lemma {:induction false} InsertSorts(p: Peer, sorted: seq<Peer>, before: (Peer, Peer) -> bool)
    requires IsOrder(before) && Ordered(sorted, before)
    ensures Ordered(Insert(p, sorted, before), before)
  {
    if sorted == [] {
    } else if before(p, sorted[0]) {
      FrontSorts(p, sorted, before);
    } else {
      var rest := Insert(p, sorted[1..], before);
      assert Ordered(sorted[1..], before);
      InsertSorts(p, sorted[1..], before);
      InsertHas(p, sorted[1..], before);
      hide IsOrder;
      forall j | 0 <= j < |rest| ensures !before(rest[j], sorted[0]) {
        assert rest[j] in multiset(rest);
        assert rest[j] == p || rest[j] in sorted[1..];
      }
    }
  }

  lemma FrontSorts(p: Peer, sorted: seq<Peer>, before: (Peer, Peer) -> bool)
    requires IsOrder(before) && Ordered(sorted, before) && sorted != [] && before(p, sorted[0])
    ensures Ordered([p] + sorted, before)
  {
    forall j | 0 <= j < |sorted| ensures !before(sorted[j], p) {
      assert !before(sorted[0], p) && (j > 0 ==> !before(sorted[j], sorted[0]));
    }
  }

  /** The stable sort arranges the same peers in order. */
  lemma {:induction false} SortSorts(peers: seq<Peer>, before: (Peer, Peer) -> bool)
    requires IsOrder(before)
    ensures Ordered(Sort(peers, before), before) && multiset(Sort(peers, before)) == multiset(peers)
  {
    if peers != [] {
      var n := |peers| - 1;
      SortSorts(peers[..n], before);
      InsertSorts(peers[n], Sort(peers[..n], before), before);
      InsertHas(peers[n], Sort(peers[..n], before), before);
      assert peers == peers[..n] + [peers[n]];
    }
  }

  lemma {:induction false} SelectIs(peers: seq<Peer>, live: bool, q: Peer)
    ensures multiset(Select(peers, live))[q] == if q.live == live then multiset(peers)[q] else 0
  {
    if peers != [] {
      var n := |peers| - 1;
      SelectIs(peers[..n], live, q);
      assert peers == peers[..n] + [peers[n]];
    }
  }

  /** `ids` are the MIs and MNs of exactly those of `peers` that are live or are not. */
  ghost predicate Names(ids: seq<PeerId>, listed: seq<Peer>, peers: seq<Peer>, live: bool) {
    && |ids| == |listed| && (forall i | 0 <= i < |ids| :: ids[i] == PeerId(listed[i].mi, listed[i].mn))
    && forall q: Peer :: multiset(listed)[q] == if q.live == live then multiset(peers)[q] else 0
  }

  /** The peers an MKPDU lists as live are exactly the live ones, greatest SCI first and among equals greatest MI
      first; the potential ones are the others, greatest MI first. */
  lemma ListsInOrder(s: State)
    ensures exists listed: seq<Peer> ::
      && Names(Pdu(s).livePeers, listed, s.peers, true)
      && forall i, j | 0 <= i < j < |listed| ::
           listed[i].sci > listed[j].sci || (listed[i].sci == listed[j].sci && listed[i].mi >= listed[j].mi)
    ensures exists listed: seq<Peer> ::
      Names(Pdu(s).potentialPeers, listed, s.peers, false) && forall i, j | 0 <= i < j < |listed| :: listed[i].mi >= listed[j].mi
  {
    hide Select, Sort;
    var live, potential := Sort(Select(s.peers, true), GreaterSci), Sort(Select(s.peers, false), GreaterMi);
    SortSorts(Select(s.peers, true), GreaterSci);
    SortSorts(Select(s.peers, false), GreaterMi);
    forall q: Peer
      ensures multiset(live)[q] == if q.live then multiset(s.peers)[q] else 0
      ensures multiset(potential)[q] == if q.live then 0 else multiset(s.peers)[q]
    {
      SelectIs(s.peers, true, q);
      SelectIs(s.peers, false, q);
    }
    assert Names(Pdu(s).livePeers, live, s.peers, true);
    assert Names(Pdu(s).potentialPeers, potential, s.peers, false);
    hide Names, Pdu;
  }

  lemma SortFrom(peers: seq<Peer>, before: (Peer, Peer) -> bool)
    requires IsOrder(before)
    ensures forall p | p in Sort(peers, before) :: p in peers
  {
    SortSorts(peers, before);
    forall p | p in Sort(peers, before) ensures p in peers {
      assert p in multiset(Sort(peers, before));
    }
  }

  lemma ListedFrom(s: State, id: PeerId)
    requires id in Listed(Pdu(s))
    ensures exists p | p in s.peers :: p.mi == id.mi && p.mn == id.mn
  {
    hide Select, Sort;
    SelectFrom(s.peers, true);
    SelectFrom(s.peers, false);
    SortFrom(Select(s.peers, true), GreaterSci);
    SortFrom(Select(s.peers, false), GreaterMi);
    var live, potential := Sort(Select(s.peers, true), GreaterSci), Sort(Select(s.peers, false), GreaterMi);
    if id in Ids(live) {
      var k :| 0 <= k < |live| && Ids(live)[k] == id;
      assert live[k] in s.peers;
    } else {
      assert id in Ids(potential);
      var k :| 0 <= k < |potential| && Ids(potential)[k] == id;
      assert potential[k] in s.peers;
    }
  }

  lemma FindUnique(peers: seq<Peer>, own: Mi, p: Peer)
    requires GoodPeers(peers, own) && p in peers
    ensures FindPeer(peers, p.mi) < |peers| && peers[FindPeer(peers, p.mi)] == p
  {
    var k :| 0 <= k < |peers| && peers[k] == p;
    assert FindPeer(peers, p.mi) <= k;
  }

  /** An MKPDU of this round never looks like a collision. */
  lemma NoCollision(c: Crypto, group: seq<State>, i: nat, j: nat, s: State)
    requires Acquainted(c, group) && i < |group| && j < |group| && i != j && Midway(c, group, i, s)
    ensures !Collides(s, Pdu(group[j]))
  {
    forall id | id in Listed(Pdu(group[j])) ensures !(id.mi == s.mi && id.mn >= s.mn) {
      hide Pdu, Knows;
      ListedFrom(group[j], id);
      var p :| p in group[j].peers && p.mi == id.mi && p.mn == id.mn;
      FindUnique(group[j].peers, group[j].mi, p);
      assert id.mi == s.mi ==> MnOf(group[j], group[i].mi) == p.mn;
    }
  }

  // --------------------------------------------------------- one MKPDU heard

  /** The records of `s`, with the one at `i` brought up to date from `b`, and non-live ones added. */
  predicate Updated(s: State, i: nat, b: Basic, r: State) {
    && i < |s.peers| <= |r.peers|
    && (var a := AdvertOf(r.peers[i]);
        && a.mi == b.mi && a.mn == b.mn && a.sci == b.sci && a.priority == b.priority && a.keyServer == b.keyServer
        && a.capability == b.capability && a.live)
    && (forall j | 0 <= j < |s.peers| && j != i :: AdvertOf(r.peers[j]) == AdvertOf(s.peers[j]))
    && NotLiveFrom(|s.peers|, r.peers)
  }

  predicate NotLiveFrom(n: nat, peers: seq<Peer>) { forall j | n <= j < |peers| :: !peers[j].live }

  lemma {:induction false} LearnNotLive(peers: seq<Peer>, own: Mi, ids: seq<PeerId>, now: nat)
    ensures NotLiveFrom(|peers|, Learn(peers, own, ids, now))
  {
    if ids != [] {
      LearnNotLive(peers, own, ids[..|ids| - 1], now);
    }
  }

  lemma HearUpdates(s: State, i: nat, p: Mkpdu, now: nat)
    requires i < |s.peers| && s.peers[i].live
    ensures var r := Hear(s, i, p, now).peers;
      |s.peers| <= |r| && r[..|s.peers|] == s.peers && NotLiveFrom(|s.peers|, r)
  {
    hide KnowsUs, Learn;
    LearnNotLive(s.peers, s.mi, p.livePeers, now);
  }

  lemma TakenUpdates(c: Crypto, s: State, p: Mkpdu, env: Env)
    requires Accepts(s, p.basic) && !Collides(s, p) && HasRecord(s, p.basic.mi)
    requires s.peers[FindPeer(s.peers, p.basic.mi)].live
    ensures var r := HandlePdu(c, s, p, env);
      && r.cfg == s.cfg && r.mi == s.mi && r.mn == s.mn
      && Updated(s, FindPeer(s.peers, p.basic.mi), p.basic, r)
  {
    hide HandlePdu, Process, Hear, Accepts, Collides, Record, FindPeer, Updated;
    var i := FindPeer(s.peers, p.basic.mi);
    var known := Record(s, p.basic, env.now);
    TakenIs(c, s, p, env);
    RecordUpdates(s, p.basic, env.now);
    ProcessVote(c, known, i, p, env);
    HearUpdates(known, i, p, env.now);
    HearFrame(known, i, p, env.now);
    UpdatedThrough(s, i, p.basic, known, Hear(known, i, p, env.now), Process(c, known, i, p, env));
  }

  lemma RecordUpdates(s: State, b: Basic, now: nat)
    requires HasRecord(s, b.mi) && s.peers[FindPeer(s.peers, b.mi)].live
    ensures var known := Record(s, b, now); var i := FindPeer(s.peers, b.mi);
      Updated(s, i, b, known) && |known.peers| == |s.peers| && known.peers[i].live && SameKeyState(s, known)
  {
  }

  lemma UpdatedThrough(s: State, i: nat, b: Basic, known: State, heard: State, r: State)
    requires Updated(s, i, b, known) && |known.peers| == |s.peers| && SameVote(heard, r)
    requires |s.peers| <= |heard.peers| && heard.peers[..|s.peers|] == known.peers && NotLiveFrom(|s.peers|, heard.peers)
    ensures Updated(s, i, b, r)
  {
    forall j | 0 <= j < |r.peers| ensures AdvertOf(r.peers[j]) == AdvertOf(heard.peers[j]) {}
    assert forall j | 0 <= j < |s.peers| :: heard.peers[j] == heard.peers[..|s.peers|][j];
  }

  lemma UpdatedFinds(s: State, i: nat, b: Basic, r: State, mi: Mi)
    requires Updated(s, i, b, r) && s.peers[i].mi == b.mi && HasRecord(s, mi)
    ensures FindPeer(r.peers, mi) == FindPeer(s.peers, mi)
  {
    var x := FindPeer(s.peers, mi);
    forall j | 0 <= j <= x ensures r.peers[j].mi == s.peers[j].mi {
      assert j != i ==> AdvertOf(r.peers[j]) == AdvertOf(s.peers[j]);
    }
    FindIn(r.peers, mi, x);
  }

  lemma UpdatedMembers(group: seq<State>, s: State, i: nat, b: Basic, r: State)
    requires OnlyMembers(group, s) && Updated(s, i, b, r) && s.peers[i].mi == b.mi && s.peers[i].live
    ensures OnlyMembers(group, r)
  {
    forall p | p in r.peers && p.live ensures exists j | 0 <= j < |group| :: group[j].mi == p.mi {
      var x :| 0 <= x < |r.peers| && r.peers[x] == p;
      assert x != i ==> AdvertOf(r.peers[x]) == AdvertOf(s.peers[x]);
      assert s.peers[x] in s.peers;
    }
  }

  /** Hearing `j` makes its record fresh and spoils nothing about `k`. */
  lemma UpdatedHeeds(group: seq<State>, s: State, j: nat, r: State, k: nat)
    requires j < |group| && k < |group| && (j == k || group[j].mi != group[k].mi)
    requires Knows(s, group[j]) && Heeds(group, s, k)
    requires Updated(s, FindPeer(s.peers, group[j].mi), Pdu(group[j]).basic, r)
    ensures Heeds(group, r, k) && (Fresh(group, s, k) || k == j ==> Fresh(group, r, k))
  {
    var x := FindPeer(s.peers, group[j].mi);
    var y := FindPeer(s.peers, group[k].mi);
    UpdatedFinds(s, x, Pdu(group[j]).basic, r, group[k].mi);
    assert y != x ==> AdvertOf(r.peers[y]) == AdvertOf(s.peers[y]);
  }

  lemma MidwayTaken(c: Crypto, group: seq<State>, i: nat, j: nat, s: State, r: State)
    requires Acquainted(c, group) && i < |group| && j < |group| && i != j && Midway(c, group, i, s) && Inv(c, r)
    requires r.cfg == s.cfg && r.mi == s.mi && r.mn == s.mn && Knows(s, group[j])
    requires Updated(s, FindPeer(s.peers, group[j].mi), Pdu(group[j]).basic, r)
    ensures Midway(c, group, i, r) && Fresh(group, r, j)
    ensures forall k | 0 <= k < |group| && k != i && Fresh(group, s, k) :: Fresh(group, r, k)
  {
    hide Pdu, Updated, Fresh, OnlyMembers, Heeds;
    assert Pdu(group[j]).basic.mi == group[j].mi by { PduIs(group[j]); }
    UpdatedMembers(group, s, FindPeer(s.peers, group[j].mi), Pdu(group[j]).basic, r);
    forall k | 0 <= k < |group| && k != i
      ensures Heeds(group, r, k) && (Fresh(group, s, k) || k == j ==> Fresh(group, r, k))
    {
      assert Heeds(group, s, k);
      UpdatedHeeds(group, s, j, r, k);
    }
  }

  lemma PduIs(s: State)
    ensures var b := Pdu(s).basic;
      && b.mi == s.mi && b.mn == s.mn && b.ckn == s.cfg.ckn && b.version == MKA_VERSION && b.algoAgility == ALGO_AGILITY
      && b.keyServer == s.role.isKeyServer && b.sci == Sci(s) && b.priority == s.cfg.priority && b.capability == 2
    ensures Pdu(s).distSak == if s.role.isKeyServer then s.role.distSak else None
  {
    hide Select, Sort;
  }

  lemma MidwayStep(c: Crypto, group: seq<State>, i: nat, j: nat, s: State, env: Env)
    requires Acquainted(c, group) && i < |group| && j < |group| && i != j && Midway(c, group, i, s)
    ensures var r := HandlePdu(c, s, Pdu(group[j]), env);
      && Midway(c, group, i, r) && Fresh(group, r, j)
      && (forall k | 0 <= k < |group| && k != i && Fresh(group, s, k) :: Fresh(group, r, k))
      && (Decided(s) || Behind(group, s, j) ==> Decided(r))
  {
    hide Pdu, HandlePdu, Decided, Collides, Fresh, Updated, Inv, Accepts, Midway, Acquainted;
    var p := Pdu(group[j]);
    PduIs(group[j]);
    MidwayHeeds(c, group, i, j, s);
    NoCollision(c, group, i, j, s);
    if Behind(group, s, j) {
      NewIsAccepted(c, group, i, j, s);
      HandlePduKeeps(c, s, p, env);
      TakenDecides(c, s, p, env);
      TakenUpdates(c, s, p, env);
      MidwayTaken(c, group, i, j, s, HandlePdu(c, s, p, env));
    } else {
      Ignored(c, s, p, env);
    }
  }

  lemma MidwayHeeds(c: Crypto, group: seq<State>, i: nat, j: nat, s: State)
    requires Acquainted(c, group) && i < |group| && j < |group| && i != j && Midway(c, group, i, s)
    ensures Inv(c, s) && group[j].mi != s.mi && Knows(s, group[j])
    ensures Behind(group, s, j) || (MnOf(s, group[j].mi) == group[j].mn && Fresh(group, s, j))
  {
    assert Heeds(group, s, j);
  }

  lemma NewIsAccepted(c: Crypto, group: seq<State>, i: nat, j: nat, s: State)
    requires Acquainted(c, group) && i < |group| && j < |group| && i != j && Midway(c, group, i, s)
    requires Behind(group, s, j)
    ensures Accepts(s, Pdu(group[j]).basic)
    ensures Pdu(group[j]).distSak.Some? ==> Pdu(group[j]).distSak.value.an < 4
  {
    PduIs(group[j]);
    hide Pdu;
    assert Inv(c, group[j]);
  }

  lemma Ignored(c: Crypto, s: State, p: Mkpdu, env: Env)
    requires p.basic.mi != s.mi && HasRecord(s, p.basic.mi) && MnOf(s, p.basic.mi) >= p.basic.mn
    ensures HandlePdu(c, s, p, env) == s
  {
  }

  // ------------------------------------------------------------------- rounds

  lemma MidwayStart(c: Crypto, group: seq<State>, i: nat)
    requires Acquainted(c, group) && MnRoom(group, 1) && i < |group|
    ensures Midway(c, group, i, Sent(group[i]))
  {
    forall j | 0 <= j < |group| && j != i ensures Heeds(group, Sent(group[i]), j) {
      assert Knows(group[i], group[j]);
    }
  }

  lemma {:induction false} MidwayHandle(c: Crypto, group: seq<State>, i: nat, order: seq<(nat, Env)>)
    requires Acquainted(c, group) && MnRoom(group, 1) && i < |group|
    requires forall k | 0 <= k < |order| :: order[k].0 < |group| && order[k].0 != i
    ensures var r := Handle(c, group, Sent(group[i]), order);
      && Midway(c, group, i, r) && (order != [] ==> Decided(r))
      && (forall k | 0 <= k < |order| :: Fresh(group, r, order[k].0))
  {
    hide Midway, Fresh, Decided, HandlePdu, Acquainted, Pdu;
    MidwayStart(c, group, i);
    if order != [] {
      var n := |order| - 1;
      MidwayHandle(c, group, i, order[..n]);
      var s := Handle(c, group, Sent(group[i]), order[..n]);
      assert forall k | 0 <= k < n :: order[..n][k] == order[k];
      if n == 0 {
        FirstIsNew(c, group, i, order[n].0);
      }
      MidwayStep(c, group, i, order[n].0, s, order[n].1);
    }
  }

  lemma FirstIsNew(c: Crypto, group: seq<State>, i: nat, j: nat)
    requires Acquainted(c, group) && i < |group| && j < |group| && i != j
    ensures Behind(group, Sent(group[i]), j)
  {
  }

  /** After a round every record is fresh and every role decided. */
  lemma RoundEffect(c: Crypto, group: seq<State>, orders: seq<seq<(nat, Env)>>, i: nat)
    requires Acquainted(c, group) && MnRoom(group, 1) && |group| >= 2 && AllFull(|group|, orders) && i < |group|
    ensures var r := Round(c, group, orders)[i];
      Midway(c, group, i, r) && Decided(r) && AllFresh(group, i, r)
  {
    hide Midway, Fresh, Decided, Acquainted, Handle;
    assert Full(|group|, i, orders[i]);
    MidwayHandle(c, group, i, orders[i]);
    var other := if i == 0 then 1 else 0;
    assert Includes(orders[i], other);
    forall j | 0 <= j < |group| && j != i ensures Fresh(group, Round(c, group, orders)[i], j) {
      assert Includes(orders[i], j);
    }
  }

  /** What the others need of participant `i` after a round. */
  predicate Renewed(c: Crypto, group: seq<State>, i: nat, s: State)
    requires i < |group|
  {
    && s.mi == group[i].mi && s.cfg == group[i].cfg && s.mn == group[i].mn + 1 && Inv(c, s) && OnlyMembers(group, s)
    && forall j | 0 <= j < |group| && j != i :: Knows(s, group[j]) && MnOf(s, group[j].mi) == group[j].mn
  }

  lemma RoundRenews(c: Crypto, group: seq<State>, orders: seq<seq<(nat, Env)>>, i: nat)
    requires Acquainted(c, group) && MnRoom(group, 1) && |group| >= 2 && AllFull(|group|, orders) && i < |group|
    ensures Renewed(c, group, i, Round(c, group, orders)[i])
  {
    hide Round, Fresh, Decided, Inv, OnlyMembers, HasRecord, MnOf, Heeds, Acquainted;
    var s := Round(c, group, orders)[i];
    RoundEffect(c, group, orders, i);
    forall j | 0 <= j < |group| && j != i ensures Knows(s, group[j]) && MnOf(s, group[j].mi) == group[j].mn {
      assert Heeds(group, s, j);
      FreshKnows(group, s, j);
    }
  }

  lemma RoundAcquaints(c: Crypto, group: seq<State>, orders: seq<seq<(nat, Env)>>)
    requires Acquainted(c, group) && MnRoom(group, 1) && |group| >= 2 && AllFull(|group|, orders)
    ensures Acquainted(c, Round(c, group, orders))
  {
    hide Round, Inv, OnlyMembers, Knows, MnOf;
    var r := Round(c, group, orders);
    forall i | 0 <= i < |group| ensures Renewed(c, group, i, r[i]) {
      RoundRenews(c, group, orders, i);
    }
    RenewedAcquaints(c, group, r);
  }

  lemma RenewedAcquaints(c: Crypto, group: seq<State>, r: seq<State>)
    requires Acquainted(c, group) && |r| == |group| && forall i | 0 <= i < |group| :: Renewed(c, group, i, r[i])
    ensures Acquainted(c, r)
  {
    hide Inv, OnlyMembers, Knows, MnOf, HasRecord, Renewed;
    forall i | 0 <= i < |group| ensures r[i].mi == group[i].mi && r[i].cfg == group[i].cfg {
      RenewedIs(c, group, i, r[i]);
    }
    forall i | 0 <= i < |group| ensures Inv(c, r[i]) && OnlyMembers(r, r[i]) {
      RenewedIs(c, group, i, r[i]);
      SameMembers(group, r, r[i]);
    }
    forall i, j | 0 <= i < |group| && 0 <= j < |group| && i != j ensures KnowsBehind(r[i], r[j]) {
      RenewedIs(c, group, j, r[j]);
      RenewedKnows(c, group, i, r[i], j, r[j]);
    }
  }

  lemma RenewedIs(c: Crypto, group: seq<State>, i: nat, s: State)
    requires i < |group| && Renewed(c, group, i, s)
    ensures s.mi == group[i].mi && s.cfg == group[i].cfg && s.mn == group[i].mn + 1 && Inv(c, s) && OnlyMembers(group, s)
  {
  }

  lemma RenewedKnows(c: Crypto, group: seq<State>, i: nat, s: State, j: nat, t: State)
    requires i < |group| && j < |group| && i != j && Renewed(c, group, i, s)
    requires t.mi == group[j].mi && t.mn == group[j].mn + 1
    ensures KnowsBehind(s, t)
  {
    hide HasRecord, Inv, OnlyMembers;
    assert Knows(s, group[j]);
  }

  lemma FreshKnows(group: seq<State>, s: State, j: nat)
    requires j < |group| && Heeds(group, s, j) && Fresh(group, s, j)
    ensures Knows(s, group[j]) && MnOf(s, group[j].mi) == group[j].mn
  {
  }

  lemma SameMembers(group: seq<State>, r: seq<State>, s: State)
    requires |r| == |group| && (forall j | 0 <= j < |group| :: r[j].mi == group[j].mi) && OnlyMembers(group, s)
    ensures OnlyMembers(r, s)
  {
    forall p | p in s.peers && p.live ensures exists j | 0 <= j < |r| :: r[j].mi == p.mi {
      var j :| 0 <= j < |group| && group[j].mi == p.mi;
      assert r[j].mi == p.mi;
    }
  }

  // ----------------------------------------------------------------- the winner

  /** `m` is capable and comes first in (priority, SCI) among the capable participants. */
  predicate First(group: seq<State>, m: nat) {
    && m < |group| && group[m].cfg.canBeKeyServer
    && forall j | 0 <= j < |group| && j != m && group[j].cfg.canBeKeyServer ::
         || group[m].cfg.priority < group[j].cfg.priority
         || (group[m].cfg.priority == group[j].cfg.priority && group[m].cfg.mac < group[j].cfg.mac)
  }

  function MemberCandidate(s: State): (c: Candidate) { Candidate(s.cfg.priority, Sci(s), false) }

  /** What `s` has recorded of the others is true, and only capable ones are recorded as key servers. */
  predicate Truthful(group: seq<State>, i: nat, s: State) {
    forall j | 0 <= j < |group| && j != i ::
      && HasRecord(s, group[j].mi)
      && (var p := s.peers[FindPeer(s.peers, group[j].mi)];
          p.sci == Sci(group[j]) && p.priority == group[j].cfg.priority && (p.keyServer ==> group[j].cfg.canBeKeyServer))
  }

  lemma FreshIsTruthful(c: Crypto, group: seq<State>, i: nat, s: State)
    requires Acquainted(c, group) && AllFresh(group, i, s)
    ensures Truthful(group, i, s)
  {
    forall j | 0 <= j < |group| && j != i
      ensures HasRecord(s, group[j].mi)
      ensures var p := s.peers[FindPeer(s.peers, group[j].mi)];
        p.sci == Sci(group[j]) && p.priority == group[j].cfg.priority && (p.keyServer ==> group[j].cfg.canBeKeyServer)
    {
      assert Fresh(group, s, j) && Inv(c, group[j]);
    }
  }

  /** Who stands at `i` is a capable participant, with its own priority and SCI. */
  lemma StandsIsMember(c: Crypto, group: seq<State>, i: nat, s: State, p: Peer) returns (j: nat)
    requires Acquainted(c, group) && i < |group| && Midway(c, group, i, s) && Truthful(group, i, s) && p in s.peers && Stands(p)
    ensures j < |group| && j != i && group[j].cfg.canBeKeyServer && CandidateOf(p) == MemberCandidate(group[j])
  {
    j :| 0 <= j < |group| && group[j].mi == p.mi;
    FindUnique(s.peers, s.mi, p);
    assert j != i;
  }

  lemma WinnerAtHome(c: Crypto, group: seq<State>, m: nat, s: State)
    requires Acquainted(c, group) && First(group, m) && Midway(c, group, m, s) && Decided(s) && Truthful(group, m, s)
    ensures s.role.isKeyServer && s.role.serverSci == Sci(group[m])
  {
    var own := OwnCandidate(s.cfg);
    BestOfIsBest(own, s.peers);
    hide BestOf;
    var r := BestOf(own, s.peers);
    if r != own {
      var p :| p in s.peers && Stands(p) && r.value == CandidateOf(p);
      var j := StandsIsMember(c, group, m, s, p);
    }
  }

  /** `s` has recorded `m` as key server. */
  predicate SeesServer(group: seq<State>, m: nat, s: State)
    requires m < |group|
  {
    HasRecord(s, group[m].mi) && s.peers[FindPeer(s.peers, group[m].mi)].keyServer
  }

  lemma WinnerElsewhere(c: Crypto, group: seq<State>, m: nat, i: nat, s: State)
    requires Acquainted(c, group) && First(group, m) && i < |group| && i != m && Midway(c, group, i, s) && Decided(s)
    requires Truthful(group, i, s) && SeesServer(group, m, s)
    ensures !s.role.isKeyServer && s.role.serverSci == Sci(group[m])
  {
    var own := OwnCandidate(s.cfg);
    BestOfIsBest(own, s.peers);
    hide BestOf;
    var r := BestOf(own, s.peers);
    assert Heeds(group, s, m);
    var pm := s.peers[FindPeer(s.peers, group[m].mi)];
    assert Stands(pm) && CandidateOf(pm) == MemberCandidate(group[m]) && pm in s.peers;
    if r != own {
      var p :| p in s.peers && Stands(p) && r.value == CandidateOf(p);
      var j := StandsIsMember(c, group, i, s, p);
    }
  }

  lemma NobodyStands(c: Crypto, group: seq<State>, i: nat, s: State)
    requires Acquainted(c, group) && i < |group| && Midway(c, group, i, s) && Decided(s) && Truthful(group, i, s)
    requires forall j | 0 <= j < |group| :: !group[j].cfg.canBeKeyServer
    ensures !s.role.isKeyServer && s.role.serverSci == 0
  {
    var own := OwnCandidate(s.cfg);
    BestOfIsBest(own, s.peers);
    hide BestOf;
    var r := BestOf(own, s.peers);
    if r.Some? {
      var p :| p in s.peers && Stands(p) && r.value == CandidateOf(p);
      var j := StandsIsMember(c, group, i, s, p);
    }
  }

  /** Two full exchange rounds leave exactly the first capable participant as key server, and
      everybody names its SCI; with nobody capable there is no key server and no SCI. */
  lemma ElectionConverges(c: Crypto, group: seq<State>, first: seq<seq<(nat, Env)>>, second: seq<seq<(nat, Env)>>)
    requires Acquainted(c, group) && MnRoom(group, 2) && |group| >= 2
    requires AllFull(|group|, first) && AllFull(|group|, second)
    ensures var r := Round(c, Round(c, group, first), second);
      && (forall m: nat, i: nat | First(group, m) && 0 <= i < |group| ::
            r[i].role.isKeyServer == (i == m) && r[i].role.serverSci == Sci(group[m]))
      && ((forall j | 0 <= j < |group| :: !group[j].cfg.canBeKeyServer) ==>
            forall i | 0 <= i < |group| :: !r[i].role.isKeyServer && r[i].role.serverSci == 0)
  {
    hide Acquainted, Midway, Decided, AllFresh, Round, Truthful, SeesServer;
    var g := Round(c, group, first);
    RoundAcquaints(c, group, first);
    forall i | 0 <= i < |group| ensures g[i].cfg == group[i].cfg && g[i].mn == group[i].mn + 1 {
      RoundEffect(c, group, first, i);
      MidwayIs(c, group, i, g[i]);
    }
    var r := Round(c, g, second);
    forall m: nat, i: nat | First(group, m) && 0 <= i < |group|
      ensures r[i].role.isKeyServer == (i == m) && r[i].role.serverSci == Sci(group[m])
    {
      RoundEffect(c, group, first, m);
      FreshIsTruthful(c, group, m, g[m]);
      WinnerAtHome(c, group, m, g[m]);
      SameFirst(group, g, m);
      RoundEffect(c, g, second, i);
      FreshIsTruthful(c, g, i, r[i]);
      if i == m {
        WinnerAtHome(c, g, m, r[m]);
      } else {
        FreshSees(g, m, i, r[i]);
        WinnerElsewhere(c, g, m, i, r[i]);
      }
    }
    if forall j | 0 <= j < |group| :: !group[j].cfg.canBeKeyServer {
      forall i | 0 <= i < |group| ensures !r[i].role.isKeyServer && r[i].role.serverSci == 0 {
        RoundEffect(c, g, second, i);
        FreshIsTruthful(c, g, i, r[i]);
        NobodyStands(c, g, i, r[i]);
      }
    }
  }

  lemma FreshSees(group: seq<State>, m: nat, i: nat, s: State)
    requires m < |group| && i != m && AllFresh(group, i, s) && group[m].role.isKeyServer
    ensures SeesServer(group, m, s)
  {
    assert Fresh(group, s, m);
  }

  lemma MidwayIs(c: Crypto, group: seq<State>, i: nat, s: State)
    requires i < |group| && Midway(c, group, i, s)
    ensures s.cfg == group[i].cfg && s.mn == group[i].mn + 1
  {
  }

  lemma SameFirst(group: seq<State>, g: seq<State>, m: nat)
    requires |g| == |group| && (forall i | 0 <= i < |group| :: g[i].cfg == group[i].cfg) && First(group, m)
    ensures First(g, m)
  {
  }
}
