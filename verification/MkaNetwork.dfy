/** Any number of participants that share a CAK, over a network that loses, duplicates, delays and
    reorders MKPDUs: key agreement and safe activation in every reachable state. */
module MkaNetwork {
  import opened Wire
  import opened Mkpdu
  import opened Mka
  import opened MkaInvariant
  import opened MkaEffects
  import MkpduRoundTrip

  /** An MKPDU that was sent; it stays on the wire for ever, so it may arrive never, once or often. */
  datatype Packet = Packet(src: Mac, pdu: Mkpdu)

  datatype Issue = Issue(sak: bytes, an: u8)

  /** The participants and the wire, with what has happened so far: the MIs drawn, the keys generated,
      and which MI has held which key as its latest with receive on. */
  datatype Net = Net(
    parts: seq<State>, wire: set<Packet>, mis: set<Mi>, issued: map<KeyId, Issue>, held: set<(Mi, KeyId)>)

  datatype Action = Act(who: nat, event: Event) | Emit(who: nat) | Deliver(who: nat, packet: Packet)

  /** The octets a receiver gets. */
  function Octets(c: Crypto, packet: Packet, ick: bytes): (b: bytes) {
    match Build(c, packet.pdu, BE(6, PAE_GROUP_ADDR), BE(6, packet.src), ick)
    case Ok(b) => b
    case Err => []
  }

  function After(c: Crypto, s: State, a: Action, env: Env): (r: State) {
    match a
    case Act(_, e) => Step(c, s, e, env)
    case Emit(_) => Sent(s)
    case Deliver(_, packet) => HandleFrame(c, s, Frame(packet.src, PAE_GROUP_ADDR, Octets(c, packet, s.cfg.ick)), env)
  }

  /** Random MIs are fresh, a packet must have been sent, at most 255 peers fit an MKPDU, and no
      participant generates 2^32 - 1 keys. */
  predicate Enabled(c: Crypto, n: Net, a: Action, env: Env) {
    && a.who < |n.parts| && env.freshMi !in n.mis
    && (a.Act? ==> a.event.ExpirePeers? || a.event.DropSak? || a.event.MakeSak?)
    && (a.Emit? ==> |n.parts[a.who].peers| <= 255)
    && (a.Deliver? ==> a.packet in n.wire)
    && n.parts[a.who].nextKn <= After(c, n.parts[a.who], a, env).nextKn
  }

  function Next(c: Crypto, n: Net, a: Action, env: Env): (n': Net)
    requires Enabled(c, n, a, env)
  {
    var s := n.parts[a.who];
    var r := After(c, s, a, env);
    Net(n.parts[a.who := r],
        if a.Emit? then n.wire + {Packet(s.cfg.mac, Pdu(s))} else n.wire,
        n.mis + {env.freshMi},
        if r.nextKn != s.nextKn && r.latest.ki.Some? && r.sak.Some?
        then n.issued[r.latest.ki.value := Issue(r.sak.value, r.latest.an)] else n.issued,
        if r.latest.ki.Some? && r.latest.rx then n.held + {(r.mi, r.latest.ki.value)} else n.held)
  }

  /** Fresh sessions with one CAK and CKN, distinct MIs and nothing sent. */
  ghost predicate Start(n: Net) {
    && n.wire == {} && n.issued == map[] && n.held == {}
    && (forall i | 0 <= i < |n.parts| :: n.parts[i] == Initial(n.parts[i].cfg, n.parts[i].mi) && n.parts[i].mi in n.mis)
    && (forall i, j | 0 <= i < j < |n.parts| :: n.parts[i].mi != n.parts[j].mi)
    && (forall i, j | 0 <= i < |n.parts| && 0 <= j < |n.parts| :: SameCak(n.parts[i].cfg, n.parts[j].cfg))
    && (forall i | 0 <= i < |n.parts| :: |n.parts[i].cfg.ckn| <= 32)
  }

  predicate SameCak(a: Config, b: Config) { a.kek == b.kek && a.ick == b.ick && a.ckn == b.ckn }

  // ---------------------------------------------------------- the invariant

  predicate PartsGood(c: Crypto, n: Net) {
    && (forall i | 0 <= i < |n.parts| :: Inv(c, n.parts[i]) && n.parts[i].mi in n.mis && |n.parts[i].cfg.ckn| <= 32)
    && (forall i, j | 0 <= i < j < |n.parts| :: n.parts[i].mi != n.parts[j].mi)
    && (forall i, j | 0 <= i < |n.parts| && 0 <= j < |n.parts| :: SameCak(n.parts[i].cfg, n.parts[j].cfg))
  }

  /** The next KN of every participant is above every KN already issued under its MI. */
  predicate CountersAhead(n: Net) {
    && (forall k | k in n.issued :: k.mi in n.mis)
    && (forall i, k | 0 <= i < |n.parts| && k in n.issued :: n.parts[i].mi == k.mi ==> k.kn < n.parts[i].nextKn)
  }

  predicate HoldsIssued(n: Net, s: State) {
    s.latest.ki.Some? ==>
      var k := s.latest.ki.value;
      k in n.issued && s.sak == Some(n.issued[k].sak) && s.latest.an == n.issued[k].an && (s.mi, k) in n.held
  }

  predicate CarriesIssued(c: Crypto, n: Net, kek: bytes, mi: Mi, d: DistSak) {
    var k := KeyId(mi, d.kn);
    k in n.issued && c.unwrap(kek, d.wrappedSak) == Some(n.issued[k].sak) && d.an == n.issued[k].an
  }

  predicate PacketGood(c: Crypto, n: Net, kek: bytes, q: Packet) {
    && MkpduRoundTrip.Encodable(q.pdu)
    && (q.pdu.distSak.Some? ==> CarriesIssued(c, n, kek, q.pdu.basic.mi, q.pdu.distSak.value))
    && (q.pdu.sakUse.Some? && q.pdu.sakUse.value.latestRx ==> (q.pdu.basic.mi, q.pdu.sakUse.value.latestKi) in n.held)
  }

  /** A peer recorded as ready for our own key has held it. */
  predicate ReadyHeld(n: Net, s: State) {
    OwnsKey(s) ==> forall p | p in s.peers :: p.rxReady ==> (p.mi, s.latest.ki.value) in n.held
  }

  ghost predicate NetInv(c: Crypto, n: Net) {
    && PartsGood(c, n) && CountersAhead(n)
    && (forall i | 0 <= i < |n.parts| :: HoldsIssued(n, n.parts[i]) && ReadyHeld(n, n.parts[i]))
    && (forall i, q | 0 <= i < |n.parts| && q in n.wire :: PacketGood(c, n, n.parts[i].cfg.kek, q))
  }

  // ------------------------------------------------------------ one step

  /** A receiver makes of a good packet exactly the MKPDU that was sent, or ignores it. */
  lemma DeliverIs(c: Crypto, s: State, q: Packet, env: Env)
    requires c.Lawful() && MkpduRoundTrip.Encodable(q.pdu)
    ensures var r := After(c, s, Deliver(0, q), env); r == HandlePdu(c, s, q.pdu, env) || r == s
  {
    var da, sa, b := BE(6, PAE_GROUP_ADDR), BE(6, q.src), Octets(c, q, s.cfg.ick);
    MkpduRoundTrip.RoundTrip(c, q.pdu, da, sa, s.cfg.ick, []);
    assert b + [] == b;
    hide Parse, Build, HandlePdu, BE;
  }

  /** Later keys and holdings do not spoil what packets and participants say. */
  predicate Grows(n: Net, n': Net) {
    && n.mis <= n'.mis && n.held <= n'.held
    && (forall k | k in n.issued :: k in n'.issued && n'.issued[k] == n.issued[k])
  }

  lemma PacketStays(c: Crypto, n: Net, n': Net, kek: bytes, q: Packet)
    requires Grows(n, n') && PacketGood(c, n, kek, q)
    ensures PacketGood(c, n', kek, q)
  {
    hide MkpduRoundTrip.Encodable;
  }

  lemma PartStays(n: Net, n': Net, s: State)
    requires Grows(n, n') && HoldsIssued(n, s) && ReadyHeld(n, s)
    ensures HoldsIssued(n', s) && ReadyHeld(n', s)
  {
  }

  /** The step of the acting participant is one of the four effects. */
  predicate Effect(c: Crypto, s: State, r: State, a: Action, env: Env) {
    || Kept(s, r)
    || Cleared(s, r, env)
    || Generated(c, s, r, env)
    || (a.Deliver? && Adopted(c, s, r, a.packet.pdu))
  }

  /** Ready peers were ready or the packet just delivered confirms them. */
  predicate Readiness(s: State, r: State, a: Action) {
    forall q | q in r.peers :: q.rxReady ==> ReadyIn(s.peers, q.mi) || (a.Deliver? && Confirms(s, a.packet.pdu, q.mi))
  }

  lemma EventEffect(c: Crypto, n: Net, a: Action, env: Env)
    requires c.Lawful() && NetInv(c, n) && Enabled(c, n, a, env)
    ensures var s := n.parts[a.who]; var r := After(c, s, a, env);
      Effect(c, s, r, a, env) && Readiness(s, r, a) && Inv(c, r)
  {
    var s := n.parts[a.who];
    assert Inv(c, s);
    hide NetInv, Inv, Enabled;
    match a
    case Act(_, e) =>
      assert !e.Receive? by { EnabledIsLocal(c, n, a, env); }
      hide Step;
      LocalEffect(c, s, e, env);
      LocalReady(c, s, e, env);
      StepKeeps(c, s, e, env);
    case Emit(_) =>
      StepKeeps(c, s, Send, env);
      LocalEffect(c, s, Send, env);
      LocalReady(c, s, Send, env);
    case Deliver(_, q) =>
      assert PacketGood(c, n, s.cfg.kek, q) by { EnabledIsOnWire(c, n, a, env); }
      DeliverEffect(c, s, a, env);
  }

  lemma EnabledIsLocal(c: Crypto, n: Net, a: Action, env: Env)
    requires Enabled(c, n, a, env) && a.Act?
    ensures !a.event.Receive?
  {
  }

  lemma EnabledIsOnWire(c: Crypto, n: Net, a: Action, env: Env)
    requires NetInv(c, n) && Enabled(c, n, a, env) && a.Deliver?
    ensures PacketGood(c, n, n.parts[a.who].cfg.kek, a.packet)
  {
  }

  lemma DeliverEffect(c: Crypto, s: State, a: Action, env: Env)
    requires c.Lawful() && Inv(c, s) && a.Deliver? && MkpduRoundTrip.Encodable(a.packet.pdu)
    ensures var r := After(c, s, a, env); Effect(c, s, r, a, env) && Readiness(s, r, a) && Inv(c, r)
  {
    var p := a.packet.pdu;
    DeliverIs(c, s, a.packet, env);
    assert After(c, s, a, env) == After(c, s, Deliver(0, a.packet), env);
    assert p.distSak.Some? ==> p.distSak.value.an < 4;
    hide After, HandlePdu, Inv, MkpduRoundTrip.Encodable;
    PduEffect(c, s, p, env);
    PduReady(c, s, p, env);
    HandlePduKeeps(c, s, p, env);
    PduReadiness(s, HandlePdu(c, s, p, env), a);
    SelfReadiness(s, a);
  }

  lemma PduReadiness(s: State, r: State, a: Action)
    requires a.Deliver? && ReadyFrom(s, r.peers, a.packet.pdu)
    ensures Readiness(s, r, a)
  {
    hide ReadyIn, Confirms;
  }

  lemma SelfReadiness(s: State, a: Action)
    ensures Readiness(s, s, a) && Kept(s, s)
  {
  }

  lemma KeepGrows(c: Crypto, n: Net, a: Action, env: Env)
    requires NetInv(c, n) && Enabled(c, n, a, env)
    requires Effect(c, n.parts[a.who], After(c, n.parts[a.who], a, env), a, env)
    ensures Grows(n, Next(c, n, a, env))
  {
    NextIs(c, n, a, env);
    hide After, NetInv, Effect, Next;
    var s := n.parts[a.who];
    var r := After(c, s, a, env);
    PartsOf(c, n);
    IssuedIs(c, s, r, a, env);
    hide Enabled, PartsGood;
    assert KeyId(s.mi, s.nextKn) !in n.issued;
  }

  /** The acting participant's own key, by effect. */
  lemma ActorHolds(c: Crypto, n: Net, a: Action, env: Env)
    requires NetInv(c, n) && Enabled(c, n, a, env) && Grows(n, Next(c, n, a, env))
    requires Effect(c, n.parts[a.who], After(c, n.parts[a.who], a, env), a, env)
    requires Inv(c, After(c, n.parts[a.who], a, env))
    ensures HoldsIssued(Next(c, n, a, env), After(c, n.parts[a.who], a, env))
  {
    var s := n.parts[a.who];
    var r := After(c, s, a, env);
    assert HoldsIssued(n, s);
    if a.Deliver? {
      EnabledIsOnWire(c, n, a, env);
    }
    hide After, MkpduRoundTrip.Encodable, NetInv, GoodPeers, Distributed;
  }

  lemma ActorReady(c: Crypto, n: Net, a: Action, env: Env)
    requires NetInv(c, n) && Enabled(c, n, a, env) && Grows(n, Next(c, n, a, env))
    requires Effect(c, n.parts[a.who], After(c, n.parts[a.who], a, env), a, env)
    requires Readiness(n.parts[a.who], After(c, n.parts[a.who], a, env), a)
    ensures ReadyHeld(Next(c, n, a, env), After(c, n.parts[a.who], a, env))
  {
    var s := n.parts[a.who];
    var r := After(c, s, a, env);
    var n' := Next(c, n, a, env);
    assert ReadyHeld(n, s);
    if a.Deliver? {
      EnabledIsOnWire(c, n, a, env);
    }
    assert n.held <= n'.held;
    hide After, Next, MkpduRoundTrip.Encodable, NetInv, Enabled, Inv, Grows, CarriesIssued;
    if OwnsKey(r) && Kept(s, r) {
      forall q | q in r.peers && q.rxReady ensures (q.mi, r.latest.ki.value) in n'.held {
        if ReadyIn(s.peers, q.mi) {
          var q0 :| q0 in s.peers && q0.mi == q.mi && q0.rxReady;
        }
      }
    }
  }

  /** An MKPDU a good participant sends is good. */
  lemma EmittedGood(c: Crypto, n: Net, s: State)
    requires c.Lawful() && Inv(c, s) && HoldsIssued(n, s) && |s.peers| <= 255 && |s.cfg.ckn| <= 32
    ensures PacketGood(c, n, s.cfg.kek, Packet(s.cfg.mac, Pdu(s)))
  {
    SortSize(Select(s.peers, true), GreaterSci);
    SortSize(Select(s.peers, false), GreaterMi);
    hide Sort, Select, GoodPeers;
    if s.role.distSak.Some? {
      assert |s.sak.value| == 16;
    }
  }

  lemma {:induction false} SortSize(peers: seq<Peer>, before: (Peer, Peer) -> bool)
    ensures |Sort(peers, before)| == |peers|
  {
    if peers != [] {
      SortSize(peers[..|peers| - 1], before);
      InsertSize(peers[|peers| - 1], Sort(peers[..|peers| - 1], before), before);
    }
  }

  lemma {:induction false} InsertSize(p: Peer, sorted: seq<Peer>, before: (Peer, Peer) -> bool)
    ensures |Insert(p, sorted, before)| == |sorted| + 1
  {
    if sorted != [] {
      InsertSize(p, sorted[1..], before);
    }
  }

  lemma ActorFrame(c: Crypto, s: State, r: State, a: Action, env: Env)
    requires Effect(c, s, r, a, env)
    ensures r.cfg == s.cfg && (r.mi == s.mi || r.mi == env.freshMi)
  {
  }

  lemma PartsOf(c: Crypto, n: Net)
    requires NetInv(c, n)
    ensures PartsGood(c, n) && CountersAhead(n)
  {
  }

  lemma NextIs(c: Crypto, n: Net, a: Action, env: Env)
    requires Enabled(c, n, a, env)
    ensures var s := n.parts[a.who]; var r := After(c, s, a, env); var n' := Next(c, n, a, env);
      && n'.parts == n.parts[a.who := r] && n'.mis == n.mis + {env.freshMi} && n.held <= n'.held
      && env.freshMi !in n.mis && s.nextKn <= r.nextKn
      && (n'.wire == n.wire || (|s.peers| <= 255 && n'.wire == n.wire + {Packet(s.cfg.mac, Pdu(s))}))
      && (r.nextKn == s.nextKn ==> n'.issued == n.issued)
      && (forall k | k in n'.issued :: k in n.issued || (r.nextKn != s.nextKn && Some(k) == r.latest.ki))
      && (forall k | k in n.issued && Some(k) != r.latest.ki :: k in n'.issued && n'.issued[k] == n.issued[k])
  {
    hide After, Pdu;
  }

  lemma NextParts(c: Crypto, n: Net, a: Action, env: Env)
    requires NetInv(c, n) && Enabled(c, n, a, env)
    requires Effect(c, n.parts[a.who], After(c, n.parts[a.who], a, env), a, env)
    requires Inv(c, After(c, n.parts[a.who], a, env))
    ensures PartsGood(c, Next(c, n, a, env)) && CountersAhead(Next(c, n, a, env))
  {
    NextIs(c, n, a, env);
    hide After, NetInv, Inv, Effect, Next, CountersAhead, PartsGood;
    var s := n.parts[a.who];
    var r := After(c, s, a, env);
    var n' := Next(c, n, a, env);
    ActorFrame(c, s, r, a, env);
    PartsOf(c, n);
    IssuedIs(c, s, r, a, env);
    hide Enabled;
    PartsStay(c, n, n', a.who, r, env);
    CountersStay(c, n, n', a.who, r);
  }

  lemma PartsStay(c: Crypto, n: Net, n': Net, who: nat, r: State, env: Env)
    requires PartsGood(c, n) && who < |n.parts| && n'.parts == n.parts[who := r] && env.freshMi !in n.mis
    requires Inv(c, r) && r.cfg == n.parts[who].cfg && (r.mi == n.parts[who].mi || r.mi == env.freshMi)
    requires n'.mis == n.mis + {env.freshMi}
    ensures PartsGood(c, n')
  {
    hide Inv, SameCak;
    forall i, j | 0 <= i < |n.parts| && 0 <= j < |n.parts| ensures SameCak(n'.parts[i].cfg, n'.parts[j].cfg) {
      assert SameCak(n.parts[i].cfg, n.parts[j].cfg);
    }
    OthersDiffer(c, n, n', who, r, env);
  }

  lemma MiIdentifies(c: Crypto, n: Net, i: nat, j: nat)
    requires PartsGood(c, n) && i < |n.parts| && j < |n.parts| && n.parts[i].mi == n.parts[j].mi
    ensures i == j
  {
    hide Inv, SameCak;
  }

  lemma OthersDiffer(c: Crypto, n: Net, n': Net, who: nat, r: State, env: Env)
    requires PartsGood(c, n) && who < |n.parts| && n'.parts == n.parts[who := r] && env.freshMi !in n.mis
    requires r.mi == n.parts[who].mi || r.mi == env.freshMi
    ensures forall i, j | 0 <= i < j < |n'.parts| :: n'.parts[i].mi != n'.parts[j].mi
  {
    hide Inv, SameCak;
  }

  lemma CountersStay(c: Crypto, n: Net, n': Net, who: nat, r: State)
    requires CountersAhead(n) && PartsGood(c, n') && who < |n.parts| && n'.parts == n.parts[who := r] && n.mis <= n'.mis
    requires n.parts[who].nextKn <= r.nextKn && (r.mi == n.parts[who].mi || r.mi !in n.mis) && r.mi in n'.mis
    requires forall k | k in n'.issued ::
      k in n.issued || (k == KeyId(r.mi, n.parts[who].nextKn) && n.parts[who].nextKn < r.nextKn)
    ensures CountersAhead(n')
  {
    hide PartsGood;
    forall i, k | 0 <= i < |n'.parts| && k in n'.issued && n'.parts[i].mi == k.mi ensures k.kn < n'.parts[i].nextKn {
      if k in n.issued {
        assert k.mi in n.mis;
        assert n.parts[i].mi == k.mi ==> k.kn < n.parts[i].nextKn;
      } else {
        assert i == who by { MiIdentifies(c, n', i, who); }
      }
    }
  }

  lemma IssuedIs(c: Crypto, s: State, r: State, a: Action, env: Env)
    requires Effect(c, s, r, a, env) && s.nextKn <= r.nextKn
    ensures r.nextKn != s.nextKn ==> r.latest.ki == Some(KeyId(s.mi, s.nextKn)) && s.nextKn < r.nextKn && r.mi == s.mi
  {
  }

  lemma NextPartsHold(c: Crypto, n: Net, n': Net, who: nat, r: State)
    requires NetInv(c, n) && who < |n.parts| && n'.parts == n.parts[who := r] && Grows(n, n')
    requires HoldsIssued(n', r) && ReadyHeld(n', r)
    ensures forall i | 0 <= i < |n'.parts| :: HoldsIssued(n', n'.parts[i]) && ReadyHeld(n', n'.parts[i])
  {
    hide HoldsIssued, ReadyHeld, PacketGood, PartsGood, CountersAhead, Grows;
    forall i | 0 <= i < |n'.parts| ensures HoldsIssued(n', n'.parts[i]) && ReadyHeld(n', n'.parts[i]) {
      if i != who {
        PartStays(n, n', n.parts[i]);
      }
    }
  }

  lemma NextWireGood(c: Crypto, n: Net, n': Net, who: nat, r: State)
    requires c.Lawful() && NetInv(c, n) && who < |n.parts| && n'.parts == n.parts[who := r] && Grows(n, n')
    requires r.cfg == n.parts[who].cfg
    requires var s := n.parts[who];
      n'.wire == n.wire || (|s.peers| <= 255 && n'.wire == n.wire + {Packet(s.cfg.mac, Pdu(s))})
    ensures forall i, q | 0 <= i < |n'.parts| && q in n'.wire :: PacketGood(c, n', n'.parts[i].cfg.kek, q)
  {
    var s := n.parts[who];
    assert Inv(c, s) && HoldsIssued(n, s) && |s.cfg.ckn| <= 32;
    hide HoldsIssued, ReadyHeld, PacketGood, CountersAhead, Grows, Inv, Pdu;
    forall i, q | 0 <= i < |n'.parts| && q in n'.wire ensures PacketGood(c, n', n'.parts[i].cfg.kek, q) {
      if q in n.wire {
        PacketStays(c, n, n', n.parts[i].cfg.kek, q);
      } else {
        EmittedGood(c, n, s);
        assert SameCak(n.parts[i].cfg, s.cfg);
        PacketStays(c, n, n', s.cfg.kek, q);
      }
    }
  }

  /** Every step of the network keeps the invariant. */
  lemma NextKeeps(c: Crypto, n: Net, a: Action, env: Env)
    requires c.Lawful() && NetInv(c, n) && Enabled(c, n, a, env)
    ensures NetInv(c, Next(c, n, a, env))
  {
    var s := n.parts[a.who];
    var r := After(c, s, a, env);
    var n' := Next(c, n, a, env);
    NextIs(c, n, a, env);
    hide After, Effect, Readiness, Inv, HoldsIssued, ReadyHeld, PacketGood, Grows, PartsGood, CountersAhead, Pdu, Next;
    EventEffect(c, n, a, env);
    KeepGrows(c, n, a, env);
    ActorHolds(c, n, a, env);
    ActorReady(c, n, a, env);
    NextParts(c, n, a, env);
    ActorFrame(c, s, r, a, env);
    NextPartsHold(c, n, n', a.who, r);
    NextWireGood(c, n, n', a.who, r);
  }

  lemma StartGood(c: Crypto, n: Net)
    requires Start(n)
    ensures NetInv(c, n)
  {
    forall i | 0 <= i < |n.parts| ensures Inv(c, n.parts[i]) && n.parts[i].latest.ki.None? {
      InitialGood(c, n.parts[i].cfg, n.parts[i].mi);
    }
  }

  // ------------------------------------------------------------------ runs

  /** A run: a start state and the states its actions lead to. */
  ghost predicate IsRun(c: Crypto, run: seq<Net>, actions: seq<(Action, Env)>) {
    && |run| == |actions| + 1 && Start(run[0])
    && (forall t | 0 <= t < |actions| ::
          Enabled(c, run[t], actions[t].0, actions[t].1) && run[t + 1] == Next(c, run[t], actions[t].0, actions[t].1))
  }

  lemma RunStep(c: Crypto, run: seq<Net>, actions: seq<(Action, Env)>, t: nat)
    requires IsRun(c, run, actions) && t < |actions|
    ensures Enabled(c, run[t], actions[t].0, actions[t].1) && run[t + 1] == Next(c, run[t], actions[t].0, actions[t].1)
  {
  }

  lemma {:induction false} RunGood(c: Crypto, run: seq<Net>, actions: seq<(Action, Env)>, t: nat)
    requires c.Lawful() && IsRun(c, run, actions) && t < |run|
    ensures NetInv(c, run[t])
  {
    if t == 0 {
      StartGood(c, run[0]);
    } else {
      RunGood(c, run, actions, t - 1);
      RunStep(c, run, actions, t - 1);
      hide NetInv, Enabled, Next, IsRun;
      NextKeeps(c, run[t - 1], actions[t - 1].0, actions[t - 1].1);
    }
  }

  /** Key agreement: in every state of every run, two participants that name the same latest key hold
      the same SAK under the same association number. */
  lemma KeyAgreement(c: Crypto, run: seq<Net>, actions: seq<(Action, Env)>, t: nat, i: nat, j: nat)
    requires c.Lawful() && IsRun(c, run, actions) && t < |run| && i < |run[t].parts| && j < |run[t].parts|
    requires run[t].parts[i].latest.ki.Some? && run[t].parts[i].latest.ki == run[t].parts[j].latest.ki
    ensures run[t].parts[i].sak.Some? && run[t].parts[i].sak == run[t].parts[j].sak
    ensures run[t].parts[i].latest.an == run[t].parts[j].latest.an
  {
    hide IsRun;
    RunGood(c, run, actions, t);
    assert HoldsIssued(run[t], run[t].parts[i]) && HoldsIssued(run[t], run[t].parts[j]);
  }

  /** `mi` held `k` as its latest key with receive on in some state up to `t`. */
  ghost predicate HeldBy(run: seq<Net>, t: nat, mi: Mi, k: KeyId) {
    exists u, i | 0 <= u <= t && u < |run| && 0 <= i < |run[u].parts| ::
      run[u].parts[i].mi == mi && run[u].parts[i].latest.ki == Some(k) && run[u].parts[i].latest.rx
  }

  /** The record of holdings is true to the run. */
  lemma {:induction false} HeldIsReal(c: Crypto, run: seq<Net>, actions: seq<(Action, Env)>, t: nat, mi: Mi, k: KeyId)
    requires IsRun(c, run, actions) && t < |run| && (mi, k) in run[t].held
    ensures HeldBy(run, t, mi, k)
  {
    if t > 0 {
      var (a, env) := actions[t - 1];
      RunStep(c, run, actions, t - 1);
      hide Enabled, Next, IsRun;
      if (mi, k) in run[t - 1].held {
        HeldIsReal(c, run, actions, t - 1, mi, k);
      } else {
        HeldStep(c, run[t - 1], a, env, mi, k);
        assert run[t].parts[a.who].mi == mi;
      }
    }
  }

  lemma HeldStep(c: Crypto, n: Net, a: Action, env: Env, mi: Mi, k: KeyId)
    requires Enabled(c, n, a, env) && (mi, k) in Next(c, n, a, env).held && (mi, k) !in n.held
    ensures a.who < |Next(c, n, a, env).parts|
    ensures var r := Next(c, n, a, env).parts[a.who]; r.mi == mi && r.latest.ki == Some(k) && r.latest.rx
  {
    hide After;
  }

  /** Safe activation: whenever a key server turns on transmission with a key it generated itself,
      every peer it then counts as live has held exactly that key as its latest with receive on. */
  lemma SafeActivation(c: Crypto, run: seq<Net>, actions: seq<(Action, Env)>, t: nat, p: Peer)
    requires c.Lawful() && IsRun(c, run, actions) && t < |actions|
    requires var i := actions[t].0.who; i < |run[t].parts| && i < |run[t + 1].parts|
    requires var s, r := run[t].parts[actions[t].0.who], run[t + 1].parts[actions[t].0.who];
      && r.role.isKeyServer && OwnsKey(r) && r.latest.tx
      && !(s.latest.tx && s.latest.ki == r.latest.ki) && p in r.peers && p.live
    ensures HeldBy(run, t, p.mi, run[t + 1].parts[actions[t].0.who].latest.ki.value)
  {
    var (a, env) := actions[t];
    var s, r := run[t].parts[a.who], run[t + 1].parts[a.who];
    RunStep(c, run, actions, t);
    hide IsRun;
    RunGood(c, run, actions, t);
    RunGood(c, run, actions, t + 1);
    assert r == After(c, s, a, env);
    ActivationIsReady(c, run[t], a, env);
    assert ReadyHeld(run[t + 1], r) && Inv(c, r);
    hide NetInv, After, IsRun;
    assert p.mi != r.mi;
    HeldIsReal(c, run, actions, t, p.mi, r.latest.ki.value);
  }

  lemma ActivationIsReady(c: Crypto, n: Net, a: Action, env: Env)
    requires c.Lawful() && NetInv(c, n) && Enabled(c, n, a, env)
    requires var s := n.parts[a.who]; var r := After(c, s, a, env);
      r.role.isKeyServer && r.latest.tx && !(s.latest.tx && s.latest.ki == r.latest.ki)
    ensures AllReady(After(c, n.parts[a.who], a, env).peers)
  {
    var s := n.parts[a.who];
    assert Inv(c, s);
    if a.Deliver? {
      assert PacketGood(c, n, s.cfg.kek, a.packet);
      DeliverIs(c, s, a.packet, env);
      hide HandlePdu, Inv;
      ActivationNeedsAll(c, s, a.packet.pdu, env);
    } else {
      var e := if a.Act? then a.event else Send;
      LocalTx(c, s, e, env);
    }
  }

  lemma LocalTx(c: Crypto, s: State, e: Event, env: Env)
    requires !e.Receive?
    ensures var r := Step(c, s, e, env); r.latest.tx ==> s.latest.tx && s.latest.ki == r.latest.ki
  {
    hide MustGenerate, InstallRxAll, Scis, RemoveRxAll, ExpiredScis;
    ExpireFrame(s, env.now);
    hide Expire;
  }
}
