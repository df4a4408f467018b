/** The participant as the source runs it: fields changed in place, loops over the peer list. */
module MkaSession {
  import opened Wire
  import opened Mkpdu
  import opened Mka
  import opened Macsec
  import MkpduCodec
  import opened MkaInvariant

  lemma {:induction false} LearnStep(peers: seq<Peer>, own: Mi, ids: seq<PeerId>, now: nat, i: nat)
    requires i < |ids|
    ensures var r, id := Learn(peers, own, ids[..i], now), ids[i];
      Learn(peers, own, ids[..i + 1], now)
      == if id.mi == own || HasPeer(r, id.mi) then r
         else r + [Peer(id.mi, id.mn, 0, 0xff, false, false, CAP_NOT_IMPLEMENTED, false, now, false, false)]
  {
    assert ids[..i + 1][..i] == ids[..i];
  }

  lemma BestStep(best: Option<Candidate>, peers: seq<Peer>, i: nat)
    requires i < |peers|
    ensures var b, p := BestOf(best, peers[..i]), peers[i];
      BestOf(best, peers[..i + 1])
      == if p.live && p.keyServer && (b.None? || Better(Candidate(p.priority, p.sci, false), b.value))
         then Some(Candidate(p.priority, p.sci, false)) else b
  {
    assert peers[..i + 1][..i] == peers[..i];
  }

  lemma ExpireStep(peers: seq<Peer>, now: nat, i: nat)
    requires i < |peers|
    ensures Alive(peers[..i + 1], now) == Alive(peers[..i], now) + (if now < peers[i].lastSeen + LIFE then [peers[i]] else [])
    ensures ExpiredScis(peers[..i + 1], now)
         == ExpiredScis(peers[..i], now)
            + (if now >= peers[i].lastSeen + LIFE && peers[i].sci != 0 then [peers[i].sci] else [])
  {
    assert peers[..i + 1][..i] == peers[..i];
  }

  lemma FindIsHas(peers: seq<Peer>, mi: Mi)
    ensures FindPeer(peers, mi) < |peers| <==> HasPeer(peers, mi)
  {
    if HasPeer(peers, mi) {
      var p :| p in peers && p.mi == mi;
    }
  }

  class MkaSession {
    const cfg: Config
    const macsec: MacsecDevice
    var mi: Mi
    var mn: u32
    var peers: seq<Peer>
    var role: Role
    var latest: KeyUse
    var prior: KeyUse
    var sak: Option<bytes>
    var nextKn: u32
    var lastSakTime: Option<nat>

    function Value(): (s: State)
      reads this, macsec
    {
      State(cfg, mi, mn, peers, role, latest, prior, sak, nextKn, lastSakTime, macsec.desired)
    }

    /** While it transmits, the netdev encodes with the latest association number. */
    ghost predicate Encodes()
      reads this, macsec
    {
      latest.tx ==> macsec.encodingSa == Some(latest.an)
    }

    constructor (config: Config, freshMi: Mi)
      ensures Value() == Initial(config, freshMi) && fresh(macsec) && Encodes()
    {
      cfg := config;
      macsec := new MacsecDevice();
      mi, mn, peers := freshMi, 1, [];
      role := Role(config.canBeKeyServer, 0, None, true, false);
      latest, prior := KeyUse(None, 0, false, false), KeyUse(None, 0, false, false);
      sak, nextKn, lastSakTime := None, 1, None;
      new;
      ElectKeyServer();
    }

    method ElectKeyServer()
      modifies this`role
      ensures Value() == Elect(old(Value()))
    {
      hide BestOf;
      var wasKeyServer := role.isKeyServer;
      var best: Option<Candidate> := None;
      if cfg.canBeKeyServer {
        best := Some(Candidate(cfg.priority, ActorSci(cfg.mac), true));
      }
      BestStart(best);
      for i := 0 to |peers|
        invariant best == BestOf(OwnCandidate(cfg), peers[..i])
        invariant role == old(role)
      {
        BestStep(OwnCandidate(cfg), peers, i);
        var peer := peers[i];
        if peer.live && peer.keyServer {
          var candidate := Candidate(peer.priority, peer.sci, false);
          if best.None? || Better(candidate, best.value) {
            best := Some(candidate);
          }
        }
      }
      assert peers[..|peers|] == peers;
      if best.Some? && best.value.own {
        role := role.(needSend := role.needSend || !role.isKeyServer, isKeyServer := true, serverSci := best.value.sci);
      } else if best.Some? {
        if role.isKeyServer {
          role := role.(needSend := true, distSak := None);
        }
        role := role.(isKeyServer := false, serverSci := best.value.sci);
      } else {
        role := role.(needSend := role.needSend || role.isKeyServer, isKeyServer := false, serverSci := 0);
      }
      if role.isKeyServer != wasKeyServer {
        role := role.(needSend := true);
        if role.isKeyServer {
          role := role.(needNewSak := true);
        } else {
          role := role.(needNewSak := false, distSak := None);
        }
      }
    }

    /** Starts over under a new MI. */
    method RestartWith(freshMi: Mi)
      modifies this
      ensures Value() == ResetMi(old(Value()), freshMi)
      ensures old(Encodes()) ==> Encodes()
    {
      mi, mn, peers := freshMi, 1, [];
      role := Role(cfg.canBeKeyServer, 0, None, role.needSend, false);
      latest := latest.(ki := None, tx := false, rx := false);
      prior := prior.(ki := None);
      sak, lastSakTime := None, None;
      role := role.(needSend := true);
    }

    /** Drops the silent peers; returns the SCIs whose receive channels must go. */
    method ExpirePeers(now: nat) returns (expired: seq<u64>)
      modifies this
      ensures Value() == Expire(old(Value()), now) && expired == ExpiredScis(old(peers), now)
      ensures old(Encodes()) ==> Encodes()
    {
      hide Alive, ExpiredScis, Elect;
      var before := peers;
      var kept: seq<Peer> := [];
      expired := [];
      ExpireStart(now);
      for i := 0 to |before|
        invariant kept == Alive(before[..i], now) && expired == ExpiredScis(before[..i], now)
        invariant Value() == old(Value())
      {
        ExpireStep(before, now, i);
        var keep := now < before[i].lastSeen + LIFE;
        if !keep && before[i].sci != 0 {
          expired := expired + [before[i].sci];
        }
        if keep {
          kept := kept + [before[i]];
        }
      }
      assert before[..|before|] == before;
      if |kept| == |before| {
        return;
      }
      peers := kept;
      role := role.(needSend := true);
      if role.isKeyServer && latest.ki.Some? && HasLivePeer(peers) {
        role := role.(needNewSak := true);
      }
      ElectKeyServer();
    }

    /** Removes the receive channels of expired peers. */
    method RemoveRxScs(scis: seq<u64>)
      modifies macsec`desired, macsec`applied
      ensures macsec.desired == RemoveRxAll(old(macsec.desired), scis)
    {
      for i := 0 to |scis|
        invariant macsec.desired == RemoveRxAll(old(macsec.desired), scis[..i])
      {
        assert scis[..i + 1][..i] == scis[..i];
        macsec.RemoveRxSc(scis[i]);
      }
      assert scis[..|scis|] == scis;
    }

    method ClearRx(installed: bool)
      modifies this`peers
      ensures peers == ResetRx(old(peers), installed)
    {
      for i := 0 to |peers|
        invariant |peers| == |old(peers)|
        invariant forall j | i <= j < |peers| :: peers[j] == old(peers)[j]
        invariant forall j | 0 <= j < i :: peers[j] == ResetRx(old(peers), installed)[j]
      {
        peers := peers[i := peers[i].(rxReady := false)];
        if installed {
          peers := peers[i := peers[i].(rxInstalled := false)];
        }
      }
    }

    method MarkRx(scis: seq<u64>, liveOnly: bool)
      modifies this`peers
      ensures peers == MarkInstalled(old(peers), scis, liveOnly)
    {
      for i := 0 to |peers|
        invariant |peers| == |old(peers)|
        invariant forall j | i <= j < |peers| :: peers[j] == old(peers)[j]
        invariant forall j | 0 <= j < i :: peers[j] == MarkInstalled(old(peers), scis, liveOnly)[j]
      {
        if (liveOnly ==> peers[i].live) && peers[i].sci in scis {
          peers := peers[i := peers[i].(rxInstalled := true)];
        }
      }
    }

    method InstallRxSas(scis: seq<u64>, an: u8, ki: KeyId, key: bytes)
      modifies macsec`desired, macsec`applied
      ensures macsec.desired == InstallRxAll(old(macsec.desired), scis, an, ki, key)
    {
      hide InstallRx;
      for i := 0 to |scis|
        invariant macsec.desired == InstallRxAll(old(macsec.desired), scis[..i], an, ki, key)
      {
        assert scis[..i + 1][..i] == scis[..i];
        macsec.InstallRxSa(scis[i], an, ki, key);
      }
      assert scis[..|scis|] == scis;
    }

    method DropUnsecureSak()
      modifies this, macsec
      ensures Value() == DropUnsecure(old(Value()))
      ensures old(Encodes()) ==> Encodes()
    {
      hide ResetRx;
      if latest.ki.None? || HasLivePeer(peers) {
        return;
      }
      macsec.ClearSas();
      latest, prior := KeyUse(None, 0, false, false), KeyUse(None, 0, false, false);
      sak, lastSakTime := None, None;
      role := role.(distSak := None, needNewSak := false);
      ClearRx(false);
      role := role.(needSend := true);
    }

    method EnsureSak(c: Crypto, env: Env)
      modifies this, macsec
      ensures Value() == Mka.EnsureSak(c, old(Value()), env)
      ensures old(Encodes()) ==> Encodes()
    {
      hide Generate;
      if !role.isKeyServer || !HasLivePeer(peers) {
        return;
      }
      if !PeersSupportMacsec(peers) {
        return;
      }
      var ours := latest.ki.Some? && latest.ki.value.mi == mi;
      if ours && !role.needNewSak {
        return;
      }
      if ours && lastSakTime.Some? && env.now < lastSakTime.value + LIFE {
        return;
      }
      GenerateSak(c, env);
    }

    method GenerateSak(c: Crypto, env: Env)
      modifies this, macsec
      ensures Value() == Generate(c, old(Value()), env)
      ensures old(Encodes()) ==> Encodes()
    {
      hide InstallRxAll, Scis, InstallTx, ResetRx, MarkInstalled;
      var kn := nextKn;
      nextKn := NextCounter(nextKn);
      var an: u8 := (latest.an + 1) % 4;
      var ki := KeyId(mi, kn);
      var wrapped := c.wrap(cfg.kek, env.freshSak);
      prior := latest;
      latest := KeyUse(Some(ki), an, false, true);
      sak, lastSakTime := Some(env.freshSak), Some(env.now);
      role := role.(needNewSak := false);
      ClearRx(true);
      role := role.(distSak := Some(DistSak(an, if cfg.encrypt then 1 else 0, kn, None, wrapped)));
      var scis := Scis(peers, false);
      macsec.InstallTxSa(an, ki, env.freshSak, false);
      InstallRxSas(scis, an, ki, env.freshSak);
      MarkRx(scis, true);
      role := role.(needSend := true);
    }

    method InstallRxSasForLivePeers()
      modifies this, macsec
      ensures Value() == InstallPending(old(Value()))
      ensures old(Encodes()) ==> Encodes()
    {
      hide InstallRxAll, Scis, MarkInstalled;
      if latest.ki.None? || sak.None? {
        return;
      }
      var pending := Scis(peers, true);
      if pending == [] {
        return;
      }
      InstallRxSas(pending, latest.an, latest.ki.value, sak.value);
      MarkRx(pending, false);
    }

    /** Creates or updates the sender's record, unless the MKPDU is stale. */
    method RecordSender(b: Basic, now: nat) returns (idx: nat, stale: bool)
      modifies this`peers, this`role
      ensures idx == FindPeer(old(peers), b.mi)
      ensures stale <==> idx < |old(peers)| && old(peers)[idx].mn >= b.mn
      ensures Value() == if stale then old(Value()) else Record(old(Value()), b, now)
    {
      idx := FindPeer(peers, b.mi);
      var isNew := idx == |peers|;
      if isNew {
        peers := peers + [NewPeer(b, now)];
      }
      if !isNew && peers[idx].mn >= b.mn {
        stale := true;
        return;
      }
      stale := false;
      var changed := PeerChanged(peers[idx], b);
      peers := peers[idx := Mka.Recorded(peers[idx], b, now)];
      if changed {
        role := role.(needSend := true);
      }
    }

    method MarkSenderLive(p: Mkpdu, idx: nat, now: nat)
      requires idx < |peers|
      modifies this`peers, this`role
      ensures Value() == MarkLive(old(Value()), idx, p, now)
    {
      hide KnowsUs;
      if KnowsUs(Value(), p) && !peers[idx].live {
        peers := peers[idx := peers[idx].(live := true, lastSeen := now)];
        role := role.(needSend := true);
        if role.isKeyServer && latest.ki.Some? {
          role := role.(needNewSak := true);
        }
      }
    }

    /** A live sender's own peers become potential peers. */
    method LearnFrom(p: Mkpdu, idx: nat, now: nat)
      requires idx < |peers|
      modifies this`peers, this`role
      ensures Value() == LearnPeers(old(Value()), idx, p, now)
    {
      hide Learn;
      if peers[idx].live {
        LearnStart(peers, mi, now);
        for i := 0 to |p.livePeers|
          invariant |old(peers)| <= |peers| && peers == Learn(old(peers), mi, p.livePeers[..i], now)
          invariant role == Wanting(old(role), |peers| > |old(peers)|, false)
        {
          LearnStep(old(peers), mi, p.livePeers, now, i);
          FindIsHas(peers, p.livePeers[i].mi);
          var id := p.livePeers[i];
          if id.mi != mi && FindPeer(peers, id.mi) == |peers| {
            peers := peers + [Peer(id.mi, id.mn, 0, 0xff, false, false, CAP_NOT_IMPLEMENTED, false, now, false, false)];
            role := role.(needSend := true);
          }
        }
        assert p.livePeers[..|p.livePeers|] == p.livePeers;
      }
    }

    method ActivateTxSa()
      modifies macsec
      ensures macsec.desired == ActivateTx(old(macsec.desired), latest.an).desired
      ensures macsec.encodingSa == Some(latest.an)
    {
      macsec.SetTxSaActive(latest.an);
    }

    method HandleSakUse(use: Option<SakUse>, idx: nat)
      requires idx < |peers|
      modifies this, macsec
      ensures Value() == UseSak(old(Value()), idx, use)
      ensures old(Encodes()) ==> Encodes()
    {
      hide ActivateTx;
      if use.None? || latest.ki != Some(use.value.latestKi) {
        return;
      }
      if role.isKeyServer && peers[idx].live {
        peers := peers[idx := peers[idx].(rxReady := use.value.latestRx)];
        if use.value.latestLlpn >= PN_EXHAUSTION {
          role := role.(needNewSak := true);
        }
        if AllReady(peers) && !latest.tx {
          latest := latest.(tx := true);
          ActivateTxSa();
          role := role.(needSend := true);
        }
        if AllReady(peers) {
          role := role.(distSak := None);
        }
      } else if
        && !role.isKeyServer && peers[idx].keyServer && IsElected(Value(), peers[idx].sci)
        && use.value.latestTx && !latest.tx
      {
        latest := latest.(tx := true);
        ActivateTxSa();
        role := role.(needSend := true);
      }
    }

    /** Takes a Distributed SAK addressed to us; `false` abandons the frame. */
    method HandleDistSak(c: Crypto, dist: Option<DistSak>, idx: nat) returns (ok: bool)
      requires idx < |peers|
      modifies this, macsec
      ensures var r := TakeSak(c, old(Value()), idx, dist);
        ok == r.Some? && Value() == if ok then r.value else old(Value())
      ensures old(Encodes()) ==> Encodes()
    {
      hide Adopt, DistSakSupported, Distributes, IsElected;
      if !Distributes(Value(), idx, dist) {
        return true;
      }
      DistributesSome(Value(), idx, dist);
      if !DistSakSupported(cfg.encrypt, dist.value) {
        return false;
      }
      if latest.ki == Some(KeyId(peers[idx].mi, dist.value.kn)) {
        return true;
      }
      var key := c.unwrap(cfg.kek, dist.value.wrappedSak);
      if key.None? || |key.value| != 16 {
        return false;
      }
      AdoptSak(dist.value, idx, key.value);
      return true;
    }

    method AdoptSak(d: DistSak, idx: nat, key: bytes)
      requires idx < |peers|
      modifies this, macsec
      ensures Value() == Adopt(old(Value()), idx, d, key)
      ensures old(Encodes()) ==> Encodes()
    {
      hide InstallRxAll, Scis, MarkInstalled, InstallTx;
      var sender := peers[idx];
      var ki := KeyId(sender.mi, d.kn);
      prior := latest;
      latest := KeyUse(Some(ki), d.an, false, true);
      sak := Some(key);
      var scis := Scis(peers, false);
      if sender.sci !in scis {
        scis := scis + [sender.sci];
      }
      InstallRxSas(scis, d.an, ki, key);
      macsec.InstallTxSa(d.an, ki, key, false);
      MarkRx(scis, true);
      role := role.(needSend := true);
    }

    method HandlePdu(c: Crypto, p: Mkpdu, env: Env)
      modifies this, macsec
      ensures Value() == Mka.HandlePdu(c, old(Value()), p, env)
      ensures old(Encodes()) ==> Encodes()
    {
      hide Process, Record, Collides;
      if p.basic.ckn != cfg.ckn {
        return;
      }
      if p.basic.mi == mi {
        RestartWith(env.freshMi);
        return;
      }
      if p.basic.version > MKA_VERSION || p.basic.algoAgility != ALGO_AGILITY {
        return;
      }
      var idx, stale := RecordSender(p.basic, env.now);
      if stale {
        return;
      }
      if Collides(Value(), p) {
        RestartWith(env.freshMi);
        return;
      }
      ProcessPdu(c, p, idx, env);
    }

    method ProcessPdu(c: Crypto, p: Mkpdu, idx: nat, env: Env)
      requires idx < |peers|
      modifies this, macsec
      ensures Value() == Process(c, old(Value()), idx, p, env)
      ensures old(Encodes()) ==> Encodes()
    {
      hide LearnPeers, MarkLive, Elect, UseSak, TakeSak, Mka.EnsureSak, InstallPending;
      MarkSenderLive(p, idx, env.now);
      LearnFrom(p, idx, env.now);
      ElectKeyServer();
      HandleSakUse(p.sakUse, idx);
      var ok := HandleDistSak(c, p.distSak, idx);
      if !ok {
        return;
      }
      NotServer(c, Value(), env);
      if role.isKeyServer {
        EnsureSak(c, env);
      }
      InstallRxSasForLivePeers();
    }

    method HandleFrame(c: Crypto, f: Frame, env: Env)
      modifies this, macsec
      ensures Value() == Mka.HandleFrame(c, old(Value()), f, env)
      ensures old(Encodes()) ==> Encodes()
    {
      hide Mka.HandlePdu, Parse, BE;
      if |f.payload| < 4 || f.payload[1] != EAPOL_TYPE_MKA {
        return;
      }
      if f.dst != PAE_GROUP_ADDR || f.src / 0x100_0000_0000 % 2 == 1 || f.src == cfg.mac {
        return;
      }
      var pdu := Parse(c, f.payload, BE(6, f.dst), BE(6, f.src), cfg.ick);
      if pdu.Ok? && pdu.value.Some? {
        HandlePdu(c, pdu.value.value, env);
      }
    }

    /** Builds and sends the next MKPDU; the counters move only when it fits an EAPOL frame. */
    method SendMkpdu(c: Crypto) returns (frame: Result<bytes>)
      modifies this
      ensures frame == Build(c, Pdu(old(Value())), BE(6, PAE_GROUP_ADDR), BE(6, cfg.mac), cfg.ick)
      ensures Value() == if frame.Ok? then Sent(old(Value())) else old(Value())
      ensures old(Encodes()) ==> Encodes()
    {
      hide Pdu, Build, BE;
      frame := MkpduCodec.BuildEapol(c, Pdu(Value()), BE(6, PAE_GROUP_ADDR), BE(6, cfg.mac), cfg.ick);
      if frame.Ok? {
        mn := NextCounter(mn);
        role := role.(needSend := false);
      }
    }

    /** The part of a loop turn ahead of the socket wait; not `ok` when the MKPDU did not fit a frame. */
    method BeforeWait(c: Crypto, env: Env, helloDue: bool) returns (ok: bool, ghost events: seq<(Event, Env)>)
      modifies this, macsec
      ensures Value() == Run(c, old(Value()), events)
      ensures old(Encodes()) ==> Encodes()
    {
      hide Expire, RemoveRxAll, ExpiredScis, DropUnsecure, Sent, Build, Pdu, Run, BE;
      RunNone(c, Value());
      ghost var start := Value();
      var expired := ExpirePeers(env.now);
      RemoveRxScs(expired);
      RunMore(c, start, [], Event.ExpirePeers(true), env);
      events := [] + [(Event.ExpirePeers(true), env)];
      DropUnsecureSak();
      RunMore(c, start, events, DropSak, env);
      events := events + [(DropSak, env)];
      ok := true;
      if role.needSend || helloDue {
        var frame := SendMkpdu(c);
        if frame.Err? {
          return false, events;
        }
        RunMore(c, start, events, Send, env);
        events := events + [(Send, env)];
      }
    }

    /** The rest of a loop turn, with the frame that arrived, if any. */
    method AfterWait(c: Crypto, env: Env, frame: Option<Frame>) returns (secured: Result<bool>, ghost events: seq<(Event, Env)>)
      modifies this, macsec
      ensures Value() == Run(c, old(Value()), events)
      ensures secured.Ok? ==> secured.value == Secured(Value())
      ensures old(Encodes()) ==> Encodes()
    {
      hide Expire, RemoveRxAll, ExpiredScis, DropUnsecure, Sent, Build, Pdu, Run, BE, Mka.HandleFrame, Mka.EnsureSak;
      RunNone(c, Value());
      ghost var start := Value();
      events := [];
      if frame.Some? {
        HandleFrame(c, frame.value, env);
        RunMore(c, start, events, Receive(frame.value), env);
        events := events + [(Receive(frame.value), env)];
      }
      var _ := ExpirePeers(env.now);
      RunMore(c, start, events, Event.ExpirePeers(false), env);
      events := events + [(Event.ExpirePeers(false), env)];
      DropUnsecureSak();
      RunMore(c, start, events, DropSak, env);
      events := events + [(DropSak, env)];
      if role.isKeyServer {
        EnsureSak(c, env);
        RunMore(c, start, events, MakeSak, env);
        events := events + [(MakeSak, env)];
      }
      if role.needSend {
        var sent := SendMkpdu(c);
        if sent.Err? {
          return Err, events;
        }
        RunMore(c, start, events, Send, env);
        events := events + [(Send, env)];
      }
      secured := Ok(Secured(Value()));
    }

    /** One turn of the session loop is a run of the participant's steps and keeps its invariant. */
    method Turn(c: Crypto, before: Env, helloDue: bool, after: Env, frame: Option<Frame>)
      returns (secured: Result<bool>, ghost events: seq<(Event, Env)>)
      modifies this, macsec
      ensures Value() == Run(c, old(Value()), events)
      ensures Inv(c, old(Value())) ==> Inv(c, Value())
      ensures secured.Ok? ==> secured.value == Secured(Value())
      ensures old(Encodes()) ==> Encodes()
    {
      hide Inv, Run;
      ghost var start := Value();
      var ok, first := BeforeWait(c, before, helloDue);
      events := first;
      secured := Err;
      if ok {
        ghost var second;
        secured, second := AfterWait(c, after, frame);
        RunConcat(c, start, first, second);
        events := first + second;
      }
      if Inv(c, start) {
        RunKeeps(c, start, events);
      }
    }
  }

  lemma BestStart(best: Option<Candidate>)
    ensures BestOf(best, []) == best
  {
  }

  lemma ExpireStart(now: nat)
    ensures Alive([], now) == [] && ExpiredScis([], now) == []
  {
  }

  lemma LearnStart(peers: seq<Peer>, own: Mi, now: nat)
    ensures Learn(peers, own, [], now) == peers
  {
  }

  lemma NotServer(c: Crypto, s: State, env: Env)
    ensures !s.role.isKeyServer ==> Mka.EnsureSak(c, s, env) == s
  {
  }

  lemma DistributesSome(s: State, i: nat, dist: Option<DistSak>)
    requires i < |s.peers| && Distributes(s, i, dist)
    ensures dist.Some?
  {
  }

  lemma RunNone(c: Crypto, s: State)
    ensures Run(c, s, []) == s
  {
  }

  lemma RunMore(c: Crypto, s: State, events: seq<(Event, Env)>, e: Event, env: Env)
    ensures Run(c, s, events + [(e, env)]) == Step(c, Run(c, s, events), e, env)
  {
    assert (events + [(e, env)])[..|events|] == events;
  }

  lemma {:induction false} RunConcat(c: Crypto, s: State, a: seq<(Event, Env)>, b: seq<(Event, Env)>)
    ensures Run(c, s, a + b) == Run(c, Run(c, s, a), b)
  {
    hide Step;
    if b == [] {
      assert a + b == a;
    } else {
      var n := |b| - 1;
      RunConcat(c, s, a, b[..n]);
      RunMore(c, s, a + b[..n], b[n].0, b[n].1);
      assert a + b[..n] + [b[n]] == a + b;
    }
  }
}
