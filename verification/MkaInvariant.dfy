/** What every step of an MKA participant keeps, and the only ways its keys can change. */
module MkaInvariant {
  import opened Wire
  import opened Mkpdu
  import opened Mka
  import MkpduRoundTrip
  import Macsec

  /** Peer MIs are pairwise distinct and never the own MI. */
  predicate GoodPeers(peers: seq<Peer>, own: Mi) {
    && (forall i, j | 0 <= i < j < |peers| :: peers[i].mi != peers[j].mi)
    && (forall i | 0 <= i < |peers| :: peers[i].mi != own)
  }

  /** The latest key id, its SAK and the receive flag are present together; transmit needs a latest
      key; a pending Distributed SAK exists only at a key server and carries its own latest key. */
  predicate GoodKeys(c: Crypto, s: State) {
    && s.latest.an < 4 && s.prior.an < 4 && s.nextKn >= 1
    && (s.latest.ki.Some? <==> s.sak.Some?) && (s.latest.ki.Some? <==> s.latest.rx)
    && (s.sak.Some? ==> |s.sak.value| == 16)
    && (s.latest.tx ==> s.latest.ki.Some?)
    && (s.role.distSak.Some? ==>
          && s.role.isKeyServer && s.latest.ki == Some(KeyId(s.mi, s.role.distSak.value.kn))
          && s.role.distSak.value == DistSak(s.latest.an, if s.cfg.encrypt then 1 else 0, s.role.distSak.value.kn, None,
                                        c.wrap(s.cfg.kek, s.sak.value)))
    && (OwnsKey(s) ==> s.lastSakTime.Some?)
    && (s.role.isKeyServer ==> s.cfg.canBeKeyServer)
  }

  predicate Inv(c: Crypto, s: State) {
    GoodPeers(s.peers, s.mi) && GoodKeys(c, s)
  }

  /** The same MIs in the same places. */
  predicate SameMis(a: seq<Peer>, b: seq<Peer>) {
    |a| == |b| && forall i | 0 <= i < |a| :: a[i].mi == b[i].mi
  }

  lemma SameMisGood(a: seq<Peer>, b: seq<Peer>, own: Mi)
    requires GoodPeers(a, own) && SameMis(a, b)
    ensures GoodPeers(b, own)
  {
    forall i, j | 0 <= i < j < |b| ensures b[i].mi != b[j].mi {
      assert a[i].mi != a[j].mi;
    }
    forall i | 0 <= i < |b| ensures b[i].mi != own {
      assert a[i].mi != own;
    }
  }

  /** Nothing but peers, the election and what is pending to be sent may differ. */
  predicate SameKeyState(s: State, r: State) {
    && r.cfg == s.cfg && r.mi == s.mi && r.mn == s.mn && r.latest == s.latest && r.prior == s.prior && r.sak == s.sak
    && r.nextKn == s.nextKn && r.lastSakTime == s.lastSakTime && r.dev == s.dev
    && (r.role.distSak == s.role.distSak || r.role.distSak.None?)
  }

  lemma ElectFrame(s: State)
    ensures SameKeyState(s, Elect(s))
  {
    hide BestOf, OwnCandidate;
  }

  lemma HearFrame(s: State, i: nat, p: Mkpdu, now: nat)
    requires i < |s.peers|
    ensures SameKeyState(s, Hear(s, i, p, now))
  {
    hide Learn, KnowsUs, Elect;
    ElectFrame(LearnPeers(MarkLive(s, i, p, now), i, p, now));
  }

  lemma ExpireFrame(s: State, now: nat)
    ensures SameKeyState(s, Expire(s, now))
  {
    hide Alive, Elect;
    var kept := Alive(s.peers, now);
    var rekey := s.role.isKeyServer && s.latest.ki.Some? && HasLivePeer(kept);
    ElectFrame(s.(peers := kept, role := Wanting(s.role, true, rekey)));
  }

  lemma RecordFrame(s: State, b: Basic, now: nat)
    ensures SameKeyState(s, Record(s, b, now)) && Record(s, b, now).role.distSak == s.role.distSak
  {
  }

  // ---------------------------------------------------------- stage by stage

  lemma ElectKeeps(c: Crypto, s: State)
    requires Inv(c, s)
    ensures Inv(c, Elect(s))
  {
    OwnOnlyIfCapable(OwnCandidate(s.cfg), s.peers);
    hide BestOf;
  }

  lemma {:induction false} OwnOnlyIfCapable(best: Option<Candidate>, peers: seq<Peer>)
    ensures var r := BestOf(best, peers);
      (r.Some? && r.value.own ==> best == r) && (best.Some? ==> r.Some?)
  {
    if peers != [] {
      OwnOnlyIfCapable(best, peers[..|peers| - 1]);
    }
  }

  lemma RecordKeeps(c: Crypto, s: State, b: Basic, now: nat)
    requires Inv(c, s) && b.mi != s.mi
    ensures Inv(c, Record(s, b, now))
  {
    var i := FindPeer(s.peers, b.mi);
    var r := Record(s, b, now).peers;
    if i < |s.peers| {
      SameMisGood(s.peers, r, s.mi);
    } else {
      assert forall j | 0 <= j < |s.peers| :: r[j] == s.peers[j];
      assert r[|s.peers|].mi == b.mi;
    }
  }

  lemma {:induction false} LearnKeeps(peers: seq<Peer>, own: Mi, ids: seq<PeerId>, now: nat)
    requires GoodPeers(peers, own)
    ensures GoodPeers(Learn(peers, own, ids, now), own)
  {
    if ids != [] {
      var r, id := Learn(peers, own, ids[..|ids| - 1], now), ids[|ids| - 1];
      LearnKeeps(peers, own, ids[..|ids| - 1], now);
      if id.mi != own && !HasPeer(r, id.mi) {
        assert forall j | 0 <= j < |r| :: r[j] in r;
      }
    }
  }

  lemma HearKeeps(c: Crypto, s: State, i: nat, p: Mkpdu, now: nat)
    requires Inv(c, s) && i < |s.peers|
    ensures Inv(c, Hear(s, i, p, now))
  {
    hide Learn, KnowsUs, Elect;
    var live := MarkLive(s, i, p, now);
    SameMisGood(s.peers, live.peers, s.mi);
    LearnKeeps(live.peers, s.mi, p.livePeers, now);
    var heard := LearnPeers(live, i, p, now);
    assert GoodPeers(heard.peers, s.mi);
    hide GoodPeers;
    ElectKeeps(c, heard);
  }

  lemma UseSakKeeps(c: Crypto, s: State, i: nat, use: Option<SakUse>)
    requires Inv(c, s) && i < |s.peers|
    ensures Inv(c, UseSak(s, i, use))
  {
    hide Macsec.ActivateTx, AllReady;
    SameMisGood(s.peers, UseSak(s, i, use).peers, s.mi);
    hide GoodPeers, SameMis;
  }

  lemma AdoptKeeps(c: Crypto, s: State, i: nat, d: DistSak, sak: bytes)
    requires Inv(c, s) && i < |s.peers| && !s.role.isKeyServer && d.an < 4 && |sak| == 16
    ensures Inv(c, Adopt(s, i, d, sak))
  {
    hide InstallRxAll, Scis;
    SameMisGood(s.peers, Adopt(s, i, d, sak).peers, s.mi);
    assert s.peers[i].mi != s.mi;
  }

  lemma EnsureSakKeeps(c: Crypto, s: State, env: Env)
    requires Inv(c, s)
    ensures Inv(c, EnsureSak(c, s, env))
  {
    if MustGenerate(s, env.now) {
      hide InstallRxAll, Scis;
      SameMisGood(s.peers, Generate(c, s, env).peers, s.mi);
    }
  }

  lemma InstallPendingKeeps(c: Crypto, s: State)
    requires Inv(c, s)
    ensures Inv(c, InstallPending(s))
  {
    hide InstallRxAll, Scis;
    SameMisGood(s.peers, InstallPending(s).peers, s.mi);
  }

  lemma ProcessKeeps(c: Crypto, s: State, i: nat, p: Mkpdu, env: Env)
    requires Inv(c, s) && i < |s.peers|
    requires p.distSak.Some? ==> p.distSak.value.an < 4
    ensures Inv(c, Process(c, s, i, p, env))
  {
    hide Inv, Hear, UseSak, Adopt, EnsureSak, InstallPending;
    HearKeeps(c, s, i, p, env.now);
    var heard := Hear(s, i, p, env.now);
    UseSakKeeps(c, heard, i, p.sakUse);
    var used := UseSak(heard, i, p.sakUse);
    var taken := TakeSak(c, used, i, p.distSak);
    if taken.Some? {
      if taken.value != used {
        AdoptKeeps(c, used, i, p.distSak.value, c.unwrap(used.cfg.kek, p.distSak.value.wrappedSak).value);
      }
      EnsureSakKeeps(c, taken.value, env);
      InstallPendingKeeps(c, EnsureSak(c, taken.value, env));
    }
  }

  lemma HandlePduKeeps(c: Crypto, s: State, p: Mkpdu, env: Env)
    requires Inv(c, s)
    requires p.distSak.Some? ==> p.distSak.value.an < 4
    ensures Inv(c, HandlePdu(c, s, p, env))
  {
    hide Record, Process;
    if Accepts(s, p.basic) {
      RecordKeeps(c, s, p.basic, env.now);
      var known := Record(s, p.basic, env.now);
      if !Collides(known, p) {
        ProcessKeeps(c, known, FindPeer(s.peers, p.basic.mi), p, env);
      }
    }
  }

  /** A frame's MKPDU has two-bit association numbers. */
  lemma ParsedAn(c: Crypto, eapol: bytes, da: bytes, sa: bytes, ick: bytes)
    ensures var r := Parse(c, eapol, da, sa, ick);
      r.Ok? && r.value.Some? && r.value.value.distSak.Some? ==> r.value.value.distSak.value.an < 4
  {
    if |eapol| >= 4 {
      var n := Read16(eapol[2], eapol[3]);
      if n >= ICV_LEN + 4 && |eapol| >= 4 + n {
        MkpduRoundTrip.ReadBodyDecoded(eapol[4..4 + n - ICV_LEN]);
        hide ReadBody;
      }
    }
  }

  lemma HandleFrameKeeps(c: Crypto, s: State, f: Frame, env: Env)
    requires Inv(c, s)
    ensures Inv(c, HandleFrame(c, s, f, env))
  {
    hide Parse, HandlePdu, Inv, BE;
    ParsedAn(c, f.payload, BE(6, f.dst), BE(6, f.src), s.cfg.ick);
    var r := Parse(c, f.payload, BE(6, f.dst), BE(6, f.src), s.cfg.ick);
    if r.Ok? && r.value.Some? {
      HandlePduKeeps(c, s, r.value.value, env);
    }
  }

  lemma {:induction false} AliveKeeps(peers: seq<Peer>, own: Mi, now: nat)
    requires GoodPeers(peers, own)
    ensures GoodPeers(Alive(peers, now), own)
  {
    if peers != [] {
      var n := |peers| - 1;
      assert GoodPeers(peers[..n], own);
      AliveKeeps(peers[..n], own, now);
      var r := Alive(peers[..n], now);
      forall j | 0 <= j < |r| ensures r[j].mi != peers[n].mi {
        assert r[j] in peers[..n];
      }
    }
  }

  lemma ExpireKeeps(c: Crypto, s: State, now: nat)
    requires Inv(c, s)
    ensures Inv(c, Expire(s, now))
  {
    AliveKeeps(s.peers, s.mi, now);
    var kept := Alive(s.peers, now);
    if |kept| != |s.peers| {
      hide Alive, Elect;
      var rekey := s.role.isKeyServer && s.latest.ki.Some? && HasLivePeer(kept);
      ElectKeeps(c, s.(peers := kept, role := Wanting(s.role, true, rekey)));
    }
  }

  lemma DropUnsecureKeeps(c: Crypto, s: State)
    requires Inv(c, s)
    ensures Inv(c, DropUnsecure(s))
  {
    if s.latest.ki.Some? && !HasLivePeer(s.peers) {
      SameMisGood(s.peers, DropUnsecure(s).peers, s.mi);
    }
  }

  /** Every step of a participant keeps the invariant. */
  lemma StepKeeps(c: Crypto, s: State, e: Event, env: Env)
    requires Inv(c, s)
    ensures Inv(c, Step(c, s, e, env))
  {
    hide HandleFrame, Expire, DropUnsecure, EnsureSak, ExpiredScis, RemoveRxAll;
    match e
    case Receive(f) => HandleFrameKeeps(c, s, f, env);
    case ExpirePeers(remove) => ExpireKeeps(c, s, env.now);
    case DropSak => DropUnsecureKeeps(c, s);
    case MakeSak => EnsureSakKeeps(c, s, env);
    case Send =>
  }

  lemma InitialGood(c: Crypto, cfg: Config, mi: Mi)
    ensures Inv(c, Initial(cfg, mi))
  {
  }

  /** A participant after a run of events, each with its own clock reading and random values. */
  function Run(c: Crypto, s: State, events: seq<(Event, Env)>): (r: State) {
    if events == [] then s
    else
      var (e, env) := events[|events| - 1];
      Step(c, Run(c, s, events[..|events| - 1]), e, env)
  }

  lemma {:induction false} RunKeeps(c: Crypto, s: State, events: seq<(Event, Env)>)
    requires Inv(c, s)
    ensures Inv(c, Run(c, s, events))
  {
    hide Inv, Step;
    if events != [] {
      var n := |events| - 1;
      RunKeeps(c, s, events[..n]);
      StepKeeps(c, Run(c, s, events[..n]), events[n].0, events[n].1);
    }
  }

  /** The invariant holds in every state of every run of a session. */
  lemma InvariantOverRuns(c: Crypto, cfg: Config, mi: Mi, events: seq<(Event, Env)>)
    ensures Inv(c, Run(c, Initial(cfg, mi), events))
  {
    hide Inv, Run, Initial;
    InitialGood(c, cfg, mi);
    RunKeeps(c, Initial(cfg, mi), events);
  }
}
