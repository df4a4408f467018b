/** Exactly what the steps of a participant do to its records, its role and what it has to send. */
module MkaSteps {
  import opened Wire
  import opened Mkpdu
  import opened Mka
  import opened MkaInvariant
  import opened MkaEffects
  import opened MkaRuns
  import opened MkaElection
  import opened MkaExact
  import Macsec

  // ---------------------------------------------------------------- election

  /** The own priority and SCI are not beaten by a live peer that offers to be key server. */
  predicate Unbeaten(s: State) {
    forall q | q in s.peers :: q.live && q.keyServer ==>
      q.priority > s.cfg.priority || (q.priority == s.cfg.priority && q.sci >= 65536 * s.cfg.mac + 1)
  }

  /** `q` offers to be key server, and no other live peer that does comes before it. */
  predicate Leads(peers: seq<Peer>, q: Peer) {
    && q.live && q.keyServer
    && forall p | p in peers :: p.live && p.keyServer ==>
         q.priority < p.priority || (q.priority == p.priority && q.sci <= p.sci)
  }

  /** The role the records call for: lowest priority value, then lowest SCI, ourselves on a tie. */
  predicate ByRecords(s: State) {
    && (s.role.isKeyServer <==> s.cfg.canBeKeyServer && Unbeaten(s))
    && (s.role.isKeyServer ==> s.role.serverSci == 65536 * s.cfg.mac + 1)
    && (!s.role.isKeyServer ==>
          if exists q | q in s.peers :: q.live && q.keyServer
          then exists q | q in s.peers :: Leads(s.peers, q) && q.sci == s.role.serverSci
          else s.role.serverSci == 0)
  }

  lemma DecidedMeans(s: State)
    requires Decided(s)
    ensures ByRecords(s)
  {
    var own := OwnCandidate(s.cfg);
    var best := BestOf(own, s.peers);
    BestOfIsBest(own, s.peers);
    NoPeerIsOwn(own, s.peers);
    hide BestOf;
    if best.Some? && best != own {
      var q :| q in s.peers && Stands(q) && best.value == CandidateOf(q);
      assert Leads(s.peers, q) && q.sci == s.role.serverSci;
    }
  }

  lemma NoPeerIsOwn(own: Option<Candidate>, peers: seq<Peer>)
    ensures var best := BestOf(own, peers); best.Some? && best.value.own ==> best == own
  {
    BestOfIsBest(own, peers);
    hide BestOf;
  }

  /** Every accepted MKPDU leaves the role its resulting records call for. */
  lemma RoleAfterPdu(c: Crypto, s: State, p: Mkpdu, env: Env)
    requires Inv(c, s) && ForUs(s, p.basic) && !ClaimsOurs(s, p)
    ensures ByRecords(HandlePdu(c, s, p, env))
  {
    hide HandlePdu, Decided, ByRecords;
    ForUsIs(s, p.basic);
    TakenDecides(c, s, p, env);
    DecidedMeans(HandlePdu(c, s, p, env));
  }

  // ------------------------------------------------------------------- expiry

  lemma {:induction false} AliveIs(peers: seq<Peer>, now: nat)
    ensures forall q :: q in Alive(peers, now) <==> q in peers && now < q.lastSeen + 6_000_000_000
    ensures |Alive(peers, now)| == |peers| <==> forall q | q in peers :: now < q.lastSeen + 6_000_000_000
    ensures |Alive(peers, now)| == |peers| ==> Alive(peers, now) == peers
  {
    if peers != [] {
      var front, last := peers[..|peers| - 1], peers[|peers| - 1];
      AliveIs(front, now);
      assert peers == front + [last];
    }
  }

  lemma {:induction false} ExpiredAre(peers: seq<Peer>, now: nat)
    ensures forall sci :: sci in ExpiredScis(peers, now) <==>
      exists q | q in peers :: now >= q.lastSeen + 6_000_000_000 && q.sci == sci != 0
  {
    if peers != [] {
      var front, last := peers[..|peers| - 1], peers[|peers| - 1];
      ExpiredAre(front, now);
      assert peers == front + [last];
    }
  }

  lemma {:induction false} RemovedAre(dev: Macsec.Desired, scis: seq<u64>)
    ensures var r := RemoveRxAll(dev, scis);
      r.tx == dev.tx && forall sc :: sc in r.rx <==> sc in dev.rx && sc.sci !in scis
  {
    if scis != [] {
      var front, last := scis[..|scis| - 1], scis[|scis| - 1];
      RemovedAre(dev, front);
      assert scis == front + [last];
      KeptAre(RemoveRxAll(dev, front).rx, last);
    }
  }

  lemma {:induction false} KeptAre(scs: seq<Macsec.RxSc>, sci: u64)
    ensures forall sc :: sc in Macsec.KeepSc(scs, sci) <==> sc in scs && sc.sci != sci
  {
    if scs != [] {
      var front, last := scs[..|scs| - 1], scs[|scs| - 1];
      KeptAre(front, sci);
      assert scs == front + [last];
    }
  }

  predicate SomeExpired(peers: seq<Peer>, now: nat) { exists q | q in peers :: now >= q.lastSeen + 6_000_000_000 }

  /** Expiry forgets exactly the peers silent for 6 s. If there is one, the role becomes what the rest calls for, an
      MKPDU is due, and a key server that stays one with a key and a live peer left wants a new key; the receive
      channels of the forgotten peers, and no others, are removed when asked. Otherwise nothing changes. */
  lemma ExpireExact(c: Crypto, s: State, remove: bool, env: Env)
    ensures var r := Step(c, s, ExpirePeers(remove), env);
      && (forall q :: q in r.peers <==> q in s.peers && env.now < q.lastSeen + 6_000_000_000)
      && (if SomeExpired(s.peers, env.now) then
            && ByRecords(r) && r.role.needSend
            && (r.role.isKeyServer ==>
                  r.role.needNewSak == (!s.role.isKeyServer || s.role.needNewSak || (s.latest.ki.Some? && SomeLive(r.peers))))
            && (!r.role.isKeyServer && s.role.isKeyServer ==> r.role.distSak.None? && !r.role.needNewSak)
            && (r.role.isKeyServer == s.role.isKeyServer ==> r.role.distSak == s.role.distSak)
            && (if remove then r.dev.tx == s.dev.tx && forall sc :: sc in r.dev.rx <==> sc in s.dev.rx && !WasOf(s.peers, env.now, sc.sci)
                else r.dev == s.dev)
          else r.peers == s.peers && r.role == s.role && (r.dev.tx == s.dev.tx && forall sc :: sc in r.dev.rx <==> sc in s.dev.rx))
      && SameKeys(s, r)
  {
    hide Elect, RemoveRxAll, ExpiredScis, Alive, ByRecords, HasLivePeer, SomeLive;
    AliveIs(s.peers, env.now);
    ExpiredAre(s.peers, env.now);
    RemovedAre(s.dev, ExpiredScis(s.peers, env.now));
    var kept := Alive(s.peers, env.now);
    LiveIs(kept);
    var rekey := s.role.isKeyServer && s.latest.ki.Some? && HasLivePeer(kept);
    var next := s.(peers := kept, role := Wanting(s.role, true, rekey));
    ElectIs(next);
    ByRecordsOnly(Elect(next), RemoveRxAll(s.dev, ExpiredScis(s.peers, env.now)));
  }

  lemma ByRecordsOnly(s: State, dev: Macsec.Desired)
    requires ByRecords(s)
    ensures ByRecords(s.(dev := dev))
  {
    hide Leads;
    assert Unbeaten(s) == Unbeaten(s.(dev := dev));
  }

  /** A channel of a peer that expiry forgets. */
  predicate WasOf(peers: seq<Peer>, now: nat, sci: u64) {
    exists q | q in peers :: now >= q.lastSeen + 6_000_000_000 && q.sci == sci != 0
  }

  /** Identity, counters and keys stay. */
  predicate SameKeys(s: State, r: State) {
    && r.cfg == s.cfg && r.mi == s.mi && r.mn == s.mn && r.latest == s.latest && r.prior == s.prior && r.sak == s.sak
    && r.nextKn == s.nextKn && r.lastSakTime == s.lastSakTime
  }

  lemma LiveIs(peers: seq<Peer>)
    ensures HasLivePeer(peers) == SomeLive(peers)
  {
  }

  lemma ElectIs(s: State)
    ensures var r := Elect(s);
      && ByRecords(r) && SameKeys(s, r) && r.dev == s.dev && r.peers == s.peers
      && (r.role.isKeyServer == s.role.isKeyServer ==> r.role == s.role.(serverSci := r.role.serverSci))
      && (r.role.isKeyServer && !s.role.isKeyServer ==> r.role.needNewSak && r.role.needSend)
      && (!r.role.isKeyServer && s.role.isKeyServer ==> !r.role.needNewSak && r.role.needSend && r.role.distSak.None?)
  {
    hide BestOf, ByRecords;
    assert Decided(Elect(s));
    hide Decided;
    DecidedMeans(Elect(s));
  }

  /** Without a live peer the key goes, and with it every security association; otherwise nothing changes. */
  lemma DropExact(c: Crypto, s: State, env: Env)
    ensures var r := Step(c, s, DropSak, env);
      if s.latest.ki.Some? && (forall q | q in s.peers :: !q.live) then
        && r.latest.ki.None? && !r.latest.tx && !r.latest.rx && r.prior.ki.None? && r.sak.None? && r.lastSakTime.None?
        && r.dev == Macsec.Desired([], []) && r.role == s.role.(distSak := None, needNewSak := false, needSend := true)
        && r.cfg == s.cfg && r.mi == s.mi && r.mn == s.mn && r.nextKn == s.nextKn && |r.peers| == |s.peers|
        && (forall i | 0 <= i < |s.peers| :: r.peers[i] == s.peers[i].(rxReady := false))
      else r == s
  {
  }

  /** A new MI comes with fresh counters, no peers and no keys; the next key will take another association number
      and a key number not used before. */
  lemma ResetExact(c: Crypto, s: State, p: Mkpdu, env: Env)
    requires Inv(c, s) && env.freshMi != s.mi && HandlePdu(c, s, p, env).mi == env.freshMi
    ensures var r := HandlePdu(c, s, p, env);
      && r.cfg == s.cfg && r.mn == 1 && r.peers == [] && r.latest == KeyUse(None, s.latest.an, false, false)
      && r.prior.ki.None? && r.sak.None? && r.lastSakTime.None? && r.nextKn == s.nextKn && r.dev == s.dev
      && r.role == Role(s.cfg.canBeKeyServer, 0, None, true, false)
  {
    hide Inv;
    PduFate(c, s, p, env);
    if !(p.basic.ckn == s.cfg.ckn && p.basic.mi == s.mi) {
      ForUsIsGood(c, s, p.basic);
      CollidesAfterRecord(s, p, env.now);
      hide Record, Process, Collides;
    }
  }

  lemma ForUsIsGood(c: Crypto, s: State, b: Basic)
    requires Inv(c, s)
    ensures Accepts(s, b) <==> ForUs(s, b)
  {
    ForUsIs(s, b);
  }

  // ------------------------------------------------------------- what is due

  lemma RecordWants(s: State, b: Basic, now: nat)
    requires GoodPeers(s.peers, s.mi) && ForUs(s, b)
    ensures Record(s, b, now).role.needSend
  {
    ForUsIs(s, b);
    hide ForUs, GoodPeers;
  }

  /** Everything after the record is made only adds to what is due. */
  lemma StillWants(c: Crypto, s: State, i: nat, p: Mkpdu, env: Env)
    requires i < |s.peers| && s.role.needSend
    ensures Process(c, s, i, p, env).role.needSend
  {
    hide Hear, UseSak, TakeSak, EnsureSak, InstallPending;
    HearWants(s, i, p, env.now);
    var used := UseSak(Hear(s, i, p, env.now), i, p.sakUse);
    UseWants(Hear(s, i, p, env.now), i, p.sakUse);
    TakeWants(c, used, i, p.distSak);
    var t := TakeSak(c, used, i, p.distSak);
    if t.Some? {
      MakeWants(c, t.value, env);
      PendingIs(EnsureSak(c, t.value, env));
    }
  }

  lemma HearWants(s: State, i: nat, p: Mkpdu, now: nat)
    requires i < |s.peers| && s.role.needSend
    ensures Hear(s, i, p, now).role.needSend
  {
    hide KnowsUs, Learn, BestOf;
  }

  lemma UseWants(s: State, i: nat, use: Option<SakUse>)
    requires i < |s.peers| && s.role.needSend
    ensures UseSak(s, i, use).role.needSend
  {
    hide AllReady, IsElected;
  }

  lemma TakeWants(c: Crypto, s: State, i: nat, dist: Option<DistSak>)
    requires i < |s.peers| && s.role.needSend
    ensures var t := TakeSak(c, s, i, dist); t.Some? ==> t.value.role.needSend
  {
    hide Distributes, DistSakSupported, InstallRxAll, Scis, MarkInstalled;
  }

  lemma MakeWants(c: Crypto, s: State, env: Env)
    requires s.role.needSend
    ensures EnsureSak(c, s, env).role.needSend
  {
    hide MustGenerate, InstallRxAll, Scis, MarkInstalled, ResetRx;
  }

  /** Every MKPDU that is not ignored makes an MKPDU of our own due; sending it settles that. */
  lemma AcceptedIsAnswered(c: Crypto, s: State, p: Mkpdu, env: Env)
    requires Inv(c, s) && ForUs(s, p.basic)
    ensures HandlePdu(c, s, p, env).role.needSend
    ensures !Step(c, HandlePdu(c, s, p, env), Send, env).role.needSend
  {
    hide Record, Process, ForUs, Collides, Inv, Accepts;
    ForUsIsGood(c, s, p.basic);
    RecordDue(c, s, p.basic, env.now);
    HandledIs(c, s, p, env);
    var known := Record(s, p.basic, env.now);
    if !Collides(known, p) {
      StillWants(c, known, FindPeer(s.peers, p.basic.mi), p, env);
    }
  }

  lemma RecordDue(c: Crypto, s: State, b: Basic, now: nat)
    requires Inv(c, s) && ForUs(s, b)
    ensures Record(s, b, now).role.needSend
  {
    RecordWants(s, b, now);
  }

  lemma HandledIs(c: Crypto, s: State, p: Mkpdu, env: Env)
    requires Accepts(s, p.basic)
    ensures var known, i := Record(s, p.basic, env.now), FindPeer(s.peers, p.basic.mi);
      && i < |known.peers|
      && HandlePdu(c, s, p, env) == if Collides(known, p) then ResetMi(known, env.freshMi) else Process(c, known, i, p, env)
  {
    hide Record, Process, Collides;
  }

  // ---------------------------------------------------------- who is recorded

  /** `mi` is among the live peers the MKPDU lists. */
  predicate Lists(ids: seq<PeerId>, mi: Mi) { exists id | id in ids :: id.mi == mi }

  /** The first MN listed with `mi`. */
  function ListedMn(ids: seq<PeerId>, mi: Mi): (mn: u32)
    requires Lists(ids, mi)
  {
    if Lists(ids[..|ids| - 1], mi) then ListedMn(ids[..|ids| - 1], mi) else ids[|ids| - 1].mn
  }

  /** What is recorded of someone we only heard of. */
  function HeardOf(mi: Mi, mn: u32, now: nat): (a: Advert) { Advert(mi, mn, 0, 255, false, false, 0, false, now) }

  lemma {:induction false} LearnIs(peers: seq<Peer>, own: Mi, ids: seq<PeerId>, now: nat, mi: Mi)
    ensures var r := Learn(peers, own, ids, now);
      && (HasPeer(r, mi) <==> HasPeer(peers, mi) || (mi != own && Lists(ids, mi)))
      && (!HasPeer(peers, mi) ==>
            forall q | q in r && q.mi == mi :: Lists(ids, mi) && AdvertOf(q) == HeardOf(mi, ListedMn(ids, mi), now))
  {
    if ids != [] {
      var front, id := ids[..|ids| - 1], ids[|ids| - 1];
      assert ids == front + [id];
      LearnIs(peers, own, front, now, mi);
      LearnIs(peers, own, front, now, id.mi);
    }
  }

  lemma HeardIs(s: State, i: nat, p: Mkpdu, now: nat, mi: Mi)
    requires i < |s.peers|
    ensures var r := Hear(s, i, p, now); var live := r.peers[i].live;
      && (HasPeer(r.peers, mi) <==> HasPeer(s.peers, mi) || (live && mi != s.mi && Lists(p.livePeers, mi)))
      && (!HasPeer(s.peers, mi) ==>
            forall q | q in r.peers && q.mi == mi ::
              Lists(p.livePeers, mi) && AdvertOf(q) == HeardOf(mi, ListedMn(p.livePeers, mi), now))
  {
    hide KnowsUs, Learn, BestOf, HeardOf, AdvertOf, ListedMn, Lists;
    var marked := MarkLive(s, i, p, now);
    LearnIs(marked.peers, s.mi, p.livePeers, now, mi);
    SameNames(s.peers, marked.peers, mi);
    var t := LearnPeers(marked, i, p, now);
    assert t.peers[i] == t.peers[..|marked.peers|][i];
  }

  lemma SameNames(a: seq<Peer>, b: seq<Peer>, mi: Mi)
    requires |a| == |b| && forall j | 0 <= j < |a| :: a[j].mi == b[j].mi
    ensures HasPeer(a, mi) == HasPeer(b, mi)
  {
    if HasPeer(a, mi) {
      var j :| 0 <= j < |a| && a[j].mi == mi;
      assert b[j] in b;
    }
    if HasPeer(b, mi) {
      var j :| 0 <= j < |b| && b[j].mi == mi;
      assert a[j] in a;
    }
  }

  lemma RecordNames(s: State, b: Basic, now: nat, mi: Mi)
    ensures HasPeer(Record(s, b, now).peers, mi) <==> HasPeer(s.peers, mi) || mi == b.mi
  {
    var i := FindPeer(s.peers, b.mi);
    var known := Record(s, b, now);
    if i < |s.peers| {
      SameNames(s.peers, known.peers, mi);
      assert s.peers[i] in s.peers;
    } else {
      SameNames(s.peers + [NewPeer(b, now)], known.peers, mi);
      assert (s.peers + [NewPeer(b, now)])[|s.peers|] in s.peers + [NewPeer(b, now)];
      assert forall q | q in s.peers :: q in s.peers + [NewPeer(b, now)];
    }
  }

  /** After an accepted MKPDU exactly these are recorded: those who were, its sender and, if the sender is then live,
      the others it lists as live; of the latter nothing is known but the MN it lists first. */
  lemma RecordedExact(c: Crypto, s: State, p: Mkpdu, env: Env, mi: Mi)
    requires Inv(c, s) && ForUs(s, p.basic) && !ClaimsOurs(s, p)
    ensures var r := HandlePdu(c, s, p, env);
      && HasRecord(r, p.basic.mi)
      && (var live := SenderOf(r, p.basic.mi).live;
          HasPeer(r.peers, mi) <==>
          HasPeer(s.peers, mi) || mi == p.basic.mi || (live && mi != s.mi && Lists(p.livePeers, mi)))
      && (!HasPeer(s.peers, mi) && mi != p.basic.mi ==>
            forall q | q in r.peers && q.mi == mi ::
              Lists(p.livePeers, mi) && AdvertOf(q) == HeardOf(mi, ListedMn(p.livePeers, mi), env.now))
  {
    hide HandlePdu, Hear, Record, Inv, ForUs, ClaimsOurs, FindPeer, Process, HeardOf, ListedMn, Lists, HasPeer;
    Stages(c, s, p, env);
    var i, known := FindPeer(s.peers, p.basic.mi), Record(s, p.basic, env.now);
    RecordNames(s, p.basic, env.now, mi);
    RecordFields(s, p.basic, env.now);
    HeardIs(known, i, p, env.now, mi);
    var heard, r := Hear(known, i, p, env.now), HandlePdu(c, s, p, env);
    VoteFields(heard, r, i);
    VoteMis(heard, r);
    SameNames(heard.peers, r.peers, mi);
    forall q | q in r.peers && q.mi == mi && !HasPeer(s.peers, mi) && mi != p.basic.mi
      ensures Lists(p.livePeers, mi) && AdvertOf(q) == HeardOf(mi, ListedMn(p.livePeers, mi), env.now)
    {
      var j :| 0 <= j < |r.peers| && r.peers[j] == q;
      VoteAt(heard, r, j);
      assert heard.peers[j] in heard.peers;
    }
  }

  lemma VoteAt(s: State, r: State, j: nat)
    requires SameVote(s, r) && j < |r.peers|
    ensures j < |s.peers| && AdvertOf(r.peers[j]) == AdvertOf(s.peers[j]) && r.peers[j].mi == s.peers[j].mi
  {
  }

  /** The records of everybody but the sender stay, readiness apart. */
  lemma OthersStay(c: Crypto, s: State, p: Mkpdu, env: Env, j: nat)
    requires Inv(c, s) && ForUs(s, p.basic) && !ClaimsOurs(s, p)
    requires j < |s.peers| && s.peers[j].mi != p.basic.mi
    ensures var r := HandlePdu(c, s, p, env); j < |r.peers| && AdvertOf(r.peers[j]) == AdvertOf(s.peers[j])
  {
    hide HandlePdu, Hear, Record, Inv, ForUs, ClaimsOurs, FindPeer, Process;
    Stages(c, s, p, env);
    HearKeepsReady(s, p, env.now);
    VoteBack(Hear(Record(s, p.basic, env.now), FindPeer(s.peers, p.basic.mi), p, env.now), HandlePdu(c, s, p, env), j);
  }

  lemma VoteBack(s: State, r: State, j: nat)
    requires SameVote(s, r) && j < |s.peers|
    ensures j < |r.peers| && AdvertOf(r.peers[j]) == AdvertOf(s.peers[j])
  {
  }

  // ------------------------------------------------------------------ sending

  /** What the own MKPDU says of its sender; sending it moves the MN on and nothing else. */
  lemma SendExact(c: Crypto, s: State, env: Env)
    ensures var b := Pdu(s).basic;
      && b.version == 3 && b.priority == s.cfg.priority && b.keyServer == s.role.isKeyServer && b.macsecDesired
      && b.capability == 2 && b.sci == 65536 * s.cfg.mac + 1 && b.mi == s.mi && b.mn == s.mn
      && b.algoAgility == 0x0080_c201 && b.ckn == s.cfg.ckn
    ensures Pdu(s).sakUse.Some? <==> s.latest.ki.Some?
    ensures Pdu(s).sakUse.Some? ==>
      var u := Pdu(s).sakUse.value;
      && Some(u.latestKi) == s.latest.ki && u.latestAn == s.latest.an && u.latestTx == s.latest.tx && u.latestRx == s.latest.rx
      && u.oldAn == s.prior.an && u.oldTx == s.prior.tx && u.oldRx == s.prior.rx
      && (s.prior.ki.Some? ==> u.oldKi == s.prior.ki.value)
    ensures Pdu(s).distSak == if s.role.isKeyServer then s.role.distSak else None
    ensures var r := Step(c, s, Send, env);
      && r.mn == (if s.mn == 0xffff_ffff then 1 else s.mn + 1) && !r.role.needSend
      && r == s.(mn := r.mn, role := s.role.(needSend := false))
  {
    hide Sort, Select;
  }

  /** A new session has an MKPDU to send, no peers and no keys, and is key server exactly if it may be. */
  lemma InitialExact(cfg: Config, mi: Mi)
    ensures var s := Initial(cfg, mi);
      && s.cfg == cfg && s.mi == mi && s.mn == 1 && s.peers == [] && s.nextKn == 1 && s.sak.None? && s.lastSakTime.None?
      && s.latest == KeyUse(None, 0, false, false) && s.prior == s.latest && s.dev == Macsec.Desired([], [])
      && s.role == Role(cfg.canBeKeyServer, if cfg.canBeKeyServer then 65536 * cfg.mac + 1 else 0, None, true, false)
  {
  }

  /** Secured is having somebody to talk to and transmitting under a key one also receives with. */
  lemma SecuredMeans(c: Crypto, s: State)
    requires Inv(c, s)
    ensures Secured(s) <==> s.latest.tx && exists q | q in s.peers :: q.live
    ensures Secured(s) ==> s.latest.ki.Some? && s.latest.rx && s.sak.Some?
  {
  }
}
