/** A participant and its MACsec device agree on the latest key over every run. */
module MkaDevice {
  import opened Wire
  import opened Mkpdu
  import opened Mka
  import MkaInvariant
  import Macsec
  import MacsecRuns

  /** The transmit SA at the latest AN is installed under the latest key id, and active while the
      participant says it transmits. */
  ghost predicate Installed(s: State) {
    && MacsecRuns.Settled(s.dev)
    && (s.latest.ki.Some? ==>
          var sa := MacsecRuns.SaAt(s.dev.tx, s.latest.an);
          sa.Some? && sa.value.keyId == s.latest.ki.value && (s.latest.tx ==> sa.value.active))
    && (s.latest.tx ==> s.latest.ki.Some?)
  }

  lemma {:induction false} InstallRxAllSettled(dev: Macsec.Desired, scis: seq<u64>, an: u8, ki: KeyId, sak: bytes)
    requires MacsecRuns.Settled(dev)
    ensures var r := InstallRxAll(dev, scis, an, ki, sak); MacsecRuns.Settled(r) && r.tx == dev.tx
  {
    if scis != [] {
      hide MacsecRuns.Settled;
      InstallRxAllSettled(dev, scis[..|scis| - 1], an, ki, sak);
      MacsecRuns.InstallRxSafe(InstallRxAll(dev, scis[..|scis| - 1], an, ki, sak), scis[|scis| - 1], an, ki, sak);
    }
  }

  lemma {:induction false} RemoveRxAllSettled(dev: Macsec.Desired, scis: seq<u64>)
    requires MacsecRuns.Settled(dev)
    ensures var r := RemoveRxAll(dev, scis); MacsecRuns.Settled(r) && r.tx == dev.tx
  {
    if scis != [] {
      hide MacsecRuns.Settled;
      RemoveRxAllSettled(dev, scis[..|scis| - 1]);
      MacsecRuns.RemoveRxSafe(RemoveRxAll(dev, scis[..|scis| - 1]), scis[|scis| - 1]);
    }
  }

  lemma InstallTxHolds(dev: Macsec.Desired, an: u8, ki: KeyId, sak: bytes)
    requires MacsecRuns.Settled(dev)
    ensures var r := Macsec.InstallTx(dev, an, ki, sak, false).desired;
      && MacsecRuns.Settled(r)
      && MacsecRuns.SaAt(r.tx, an).Some? && MacsecRuns.SaAt(r.tx, an).value.keyId == ki
  {
    MacsecRuns.InstallTxSafe(dev, an, ki, sak, false);
    if !Macsec.HasKey(dev.tx, an, ki) {
      MacsecRuns.Replaced(dev.tx, Macsec.Sa(an, Some(1), false, ki, sak), an);
      hide MacsecRuns.Settled;
    }
  }

  lemma ActivateHolds(s: State)
    requires Installed(s) && s.latest.ki.Some?
    ensures Installed(Transmit(s))
  {
    MacsecRuns.ActivateSettled(s.dev, s.latest.an);
    MacsecRuns.ActivateSlots(s.dev, s.latest.an, MacsecRuns.TxSlot(s.latest.an));
    hide MacsecRuns.Settled;
  }

  lemma UseSakInstalled(s: State, i: nat, use: Option<SakUse>)
    requires Installed(s) && i < |s.peers|
    ensures Installed(UseSak(s, i, use))
  {
    hide MacsecRuns.Settled, MacsecRuns.SaAt, Macsec.ActivateTx, AllReady;
    if s.latest.ki.Some? {
      ActivateHolds(s);
    }
  }

  lemma AdoptInstalled(s: State, i: nat, d: DistSak, sak: bytes)
    requires Installed(s) && i < |s.peers|
    ensures Installed(Adopt(s, i, d, sak))
  {
    hide MacsecRuns.Settled, MacsecRuns.SaAt, InstallRxAll, Macsec.InstallTx, Scis;
    var live := Scis(s.peers, false);
    var scis := if s.peers[i].sci in live then live else live + [s.peers[i].sci];
    var ki := KeyId(s.peers[i].mi, d.kn);
    InstallRxAllSettled(s.dev, scis, d.an, ki, sak);
    InstallTxHolds(InstallRxAll(s.dev, scis, d.an, ki, sak), d.an, ki, sak);
  }

  lemma EnsureSakInstalled(c: Crypto, s: State, env: Env)
    requires Installed(s)
    ensures Installed(EnsureSak(c, s, env))
  {
    hide MacsecRuns.Settled, MacsecRuns.SaAt, InstallRxAll, Macsec.InstallTx, Scis, MustGenerate, MarkInstalled, ResetRx;
    if MustGenerate(s, env.now) {
      var an: u8 := (s.latest.an + 1) % 4;
      var ki := KeyId(s.mi, s.nextKn);
      var dev := Macsec.InstallTx(s.dev, an, ki, env.freshSak, false).desired;
      var g := Generate(c, s, env);
      assert g.latest == KeyUse(Some(ki), an, false, true);
      assert g.dev == InstallRxAll(dev, Scis(ResetRx(s.peers, true), false), an, ki, env.freshSak);
      hide Generate;
      InstallTxHolds(s.dev, an, ki, env.freshSak);
      InstallRxAllSettled(dev, Scis(ResetRx(s.peers, true), false), an, ki, env.freshSak);
    }
  }

  lemma InstallPendingInstalled(s: State)
    requires Installed(s)
    ensures Installed(InstallPending(s))
  {
    if s.latest.ki.Some? && s.sak.Some? {
      InstallRxAllSettled(s.dev, Scis(s.peers, true), s.latest.an, s.latest.ki.value, s.sak.value);
      hide MacsecRuns.Settled, MacsecRuns.SaAt, InstallRxAll, Scis;
    }
  }

  lemma ProcessInstalled(c: Crypto, s: State, i: nat, p: Mkpdu, env: Env)
    requires Installed(s) && i < |s.peers|
    ensures Installed(Process(c, s, i, p, env))
  {
    hide Hear;
    var heard := Hear(s, i, p, env.now);
    MkaInvariant.HearFrame(s, i, p, env.now);
    assert Installed(heard);
    hide Installed, UseSak, Adopt, EnsureSak, InstallPending;
    UseSakInstalled(heard, i, p.sakUse);
    var used := UseSak(heard, i, p.sakUse);
    var taken := TakeSak(c, used, i, p.distSak);
    if taken.Some? {
      if taken.value != used {
        AdoptInstalled(used, i, p.distSak.value, c.unwrap(used.cfg.kek, p.distSak.value.wrappedSak).value);
      }
      EnsureSakInstalled(c, taken.value, env);
      InstallPendingInstalled(EnsureSak(c, taken.value, env));
    }
  }

  lemma HandlePduInstalled(c: Crypto, s: State, p: Mkpdu, env: Env)
    requires Installed(s)
    ensures Installed(HandlePdu(c, s, p, env))
  {
    hide MacsecRuns.Settled, MacsecRuns.SaAt, Process;
    if Accepts(s, p.basic) {
      var known := Record(s, p.basic, env.now);
      ProcessInstalled(c, known, FindPeer(s.peers, p.basic.mi), p, env);
    }
  }

  lemma HandleFrameInstalled(c: Crypto, s: State, f: Frame, env: Env)
    requires Installed(s)
    ensures Installed(HandleFrame(c, s, f, env))
  {
    hide Parse, HandlePdu, BE, Installed;
    var r := Parse(c, f.payload, BE(6, f.dst), BE(6, f.src), s.cfg.ick);
    if r.Ok? && r.value.Some? {
      HandlePduInstalled(c, s, r.value.value, env);
    }
  }

  lemma ExpireInstalled(s: State, now: nat, remove: bool)
    requires Installed(s)
    ensures var r := Expire(s, now);
      Installed(if remove then r.(dev := RemoveRxAll(r.dev, ExpiredScis(s.peers, now))) else r)
  {
    hide Expire, RemoveRxAll, ExpiredScis, MacsecRuns.Settled, MacsecRuns.SaAt;
    MkaInvariant.ExpireFrame(s, now);
    RemoveRxAllSettled(s.dev, ExpiredScis(s.peers, now));
  }

  lemma DropInstalled(s: State)
    requires Installed(s)
    ensures Installed(DropUnsecure(s))
  {
    EmptySettled();
    hide MacsecRuns.Settled, MacsecRuns.SaAt, ResetRx;
  }

  lemma StepInstalled(c: Crypto, s: State, e: Event, env: Env)
    requires Installed(s)
    ensures Installed(Step(c, s, e, env))
  {
    match e
    case Receive(f) =>
      hide HandleFrame, Installed;
      HandleFrameInstalled(c, s, f, env);
    case ExpirePeers(remove) =>
      hide Expire, Installed;
      ExpireInstalled(s, env.now, remove);
    case DropSak =>
      hide DropUnsecure, Installed;
      DropInstalled(s);
    case MakeSak =>
      hide EnsureSak, Installed;
      EnsureSakInstalled(c, s, env);
    case Send =>
      hide MacsecRuns.Settled, MacsecRuns.SaAt;
  }

  lemma EmptySettled()
    ensures MacsecRuns.Settled(Macsec.Desired([], []))
  {
  }

  /** Over every run, a participant that transmits has an active transmit SA under its latest key. */
  lemma {:induction false} TransmitsWithLatestKey(c: Crypto, cfg: Config, mi: Mi, events: seq<(Event, Env)>)
    ensures Installed(MkaInvariant.Run(c, Initial(cfg, mi), events))
  {
    if events == [] {
      EmptySettled();
    } else {
      var n := |events| - 1;
      hide Installed, Step;
      TransmitsWithLatestKey(c, cfg, mi, events[..n]);
      StepInstalled(c, MkaInvariant.Run(c, Initial(cfg, mi), events[..n]), events[n].0, events[n].1);
    }
  }
}
