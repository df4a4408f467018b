/** The four ways one step can touch a participant's keys, and where its readiness flags come from. */
module MkaEffects {
  import opened Wire
  import opened Mkpdu
  import opened Mka
  import opened MkaInvariant

  /** The latest key stays; transmission may have been turned on. */
  predicate Kept(s: State, r: State) {
    && r.cfg == s.cfg && r.mi == s.mi && r.nextKn == s.nextKn && r.lastSakTime == s.lastSakTime
    && r.latest.ki == s.latest.ki && r.latest.an == s.latest.an && r.latest.rx == s.latest.rx && r.sak == s.sak
    && (s.latest.tx ==> r.latest.tx)
    && (r.role.distSak == s.role.distSak || r.role.distSak.None?)
  }

  /** There is no latest key any more; the MI may be a new one. */
  predicate Cleared(s: State, r: State, env: Env) {
    && r.cfg == s.cfg && r.nextKn == s.nextKn && r.latest.ki.None? && r.role.distSak.None? && !r.latest.tx
    && (r.mi == s.mi || (r.mi == env.freshMi && r.peers == []))
  }

  /** A key server made its own key. */
  predicate Generated(c: Crypto, s: State, r: State, env: Env) {
    && r.cfg == s.cfg && r.mi == s.mi && r.nextKn == NextCounter(s.nextKn) && r.lastSakTime == Some(env.now)
    && r.latest == KeyUse(Some(KeyId(s.mi, s.nextKn)), (s.latest.an + 1) % 4, false, true)
    && r.sak == Some(env.freshSak)
    && r.role.distSak == Some(Distributed(c, s, (s.latest.an + 1) % 4, env.freshSak))
    && (forall p | p in r.peers :: !p.rxReady)
    && (OwnsKey(s) && s.lastSakTime.Some? ==> env.now >= s.lastSakTime.value + LIFE)
  }

  /** A key distributed in `p` was taken. */
  predicate Adopted(c: Crypto, s: State, r: State, p: Mkpdu) {
    && r.cfg == s.cfg && r.mi == s.mi && r.nextKn == s.nextKn && p.distSak.Some?
    && r.latest == KeyUse(Some(KeyId(p.basic.mi, p.distSak.value.kn)), p.distSak.value.an, false, true)
    && r.sak.Some? && r.sak == c.unwrap(s.cfg.kek, p.distSak.value.wrappedSak)
    && r.role.distSak.None? && p.basic.mi != s.mi && !r.role.isKeyServer
  }

  lemma UseSakEffect(s: State, i: nat, use: Option<SakUse>)
    requires i < |s.peers|
    ensures Kept(s, UseSak(s, i, use))
  {
    hide AllReady, IsElected;
  }

  lemma GenerateEffect(c: Crypto, s: State, env: Env)
    requires MustGenerate(s, env.now)
    ensures Generated(c, s, Generate(c, s, env), env)
  {
    hide InstallRxAll, Scis;
  }

  lemma ProcessEffect(c: Crypto, s: State, i: nat, p: Mkpdu, env: Env)
    requires Inv(c, s) && i < |s.peers| && s.peers[i].mi == p.basic.mi
    ensures var r := Process(c, s, i, p, env); Kept(s, r) || Generated(c, s, r, env) || Adopted(c, s, r, p)
  {
    var heard := Hear(s, i, p, env.now);
    HearFrame(s, i, p, env.now);
    HearKeeps(c, s, i, p, env.now);
    HearMi(s, i, p, env.now);
    hide Hear;
    var used := UseSak(heard, i, p.sakUse);
    UseSakEffect(heard, i, p.sakUse);
    UseSakKeeps(c, heard, i, p.sakUse);
    UseSakMi(heard, i, p.sakUse);
    hide UseSak, SameKeyState;
    var taken := TakeSak(c, used, i, p.distSak);
    if taken.Some? {
      if taken.value == used {
        TailEffect(c, s, used, env);
      } else {
        AdoptEffect(c, s, used, i, p, env);
      }
    }
  }

  lemma HearMi(s: State, i: nat, p: Mkpdu, now: nat)
    requires i < |s.peers|
    ensures Hear(s, i, p, now).peers[i].mi == s.peers[i].mi
  {
    hide Learn, KnowsUs;
    var live := MarkLive(s, i, p, now);
    var r := LearnPeers(live, i, p, now);
    assert r.peers[i] == r.peers[..|live.peers|][i];
  }

  lemma UseSakMi(s: State, i: nat, use: Option<SakUse>)
    requires i < |s.peers|
    ensures UseSak(s, i, use).peers[i].mi == s.peers[i].mi
  {
    hide AllReady, IsElected;
  }

  /** `ensure_sak` and the pending RX installs on a state whose keys are those of `s`. */
  lemma TailEffect(c: Crypto, s: State, used: State, env: Env)
    requires Kept(s, used)
    ensures var r := InstallPending(EnsureSak(c, used, env)); Kept(s, r) || Generated(c, s, r, env)
  {
    if MustGenerate(used, env.now) {
      GenerateEffect(c, used, env);
      hide Generate, MustGenerate;
      var g := Generate(c, used, env);
      PendingReady(g);
      hide InstallRxAll, Scis;
    } else {
      hide MustGenerate, InstallRxAll, Scis;
    }
  }

  lemma PendingReady(g: State)
    ensures (forall p | p in g.peers :: !p.rxReady) ==> forall p | p in InstallPending(g).peers :: !p.rxReady
  {
    hide InstallRxAll, Scis;
    var r := InstallPending(g).peers;
    assert forall j | 0 <= j < |r| :: r[j].rxReady == g.peers[j].rxReady && g.peers[j] in g.peers;
  }

  lemma AdoptEffect(c: Crypto, s: State, used: State, i: nat, p: Mkpdu, env: Env)
    requires Kept(s, used) && Inv(c, used) && i < |used.peers| && used.peers[i].mi == p.basic.mi
    requires var taken := TakeSak(c, used, i, p.distSak); taken.Some? && taken.value != used
    ensures var taken := TakeSak(c, used, i, p.distSak).value;
      Adopted(c, s, InstallPending(EnsureSak(c, taken, env)), p)
  {
    hide InstallRxAll, Scis, MarkInstalled, Generate, DistSakSupported;
    var taken := TakeSak(c, used, i, p.distSak).value;
    assert !taken.role.isKeyServer && taken.role.distSak.None?;
    assert EnsureSak(c, taken, env) == taken;
  }

  /** The effect of any MKPDU. */
  lemma PduEffect(c: Crypto, s: State, p: Mkpdu, env: Env)
    requires Inv(c, s)
    ensures var r := HandlePdu(c, s, p, env);
      Kept(s, r) || Cleared(s, r, env) || Generated(c, s, r, env) || Adopted(c, s, r, p)
  {
    if Accepts(s, p.basic) {
      var known := Record(s, p.basic, env.now);
      RecordFrame(s, p.basic, env.now);
      RecordKeeps(c, s, p.basic, env.now);
      hide Record, Inv;
      if !Collides(known, p) {
        RecordMi(s, p.basic, env.now);
        var i := FindPeer(s.peers, p.basic.mi);
        ProcessEffect(c, known, i, p, env);
        hide Process;
        GeneratedFrom(c, s, known, Process(c, known, i, p, env), env);
      }
    }
  }

  lemma GeneratedFrom(c: Crypto, s: State, known: State, r: State, env: Env)
    requires SameKeyState(s, known)
    ensures Generated(c, known, r, env) ==> Generated(c, s, r, env)
  {
  }

  lemma RecordMi(s: State, b: Basic, now: nat)
    ensures Record(s, b, now).peers[FindPeer(s.peers, b.mi)].mi == b.mi
  {
  }

  /** The effect of a step that reads no frame. */
  lemma LocalEffect(c: Crypto, s: State, e: Event, env: Env)
    requires Inv(c, s) && !e.Receive?
    ensures var r := Step(c, s, e, env); Kept(s, r) || Cleared(s, r, env) || Generated(c, s, r, env)
  {
    match e
    case ExpirePeers(remove) =>
      ExpireFrame(s, env.now);
      hide Expire, RemoveRxAll, ExpiredScis;
    case DropSak => hide ResetRx;
    case MakeSak =>
      if MustGenerate(s, env.now) {
        GenerateEffect(c, s, env);
        hide Generate, MustGenerate;
      }
    case Send =>
  }

  // ------------------------------------------------------------- readiness

  predicate ReadyIn(peers: seq<Peer>, mi: Mi) { exists q | q in peers :: q.mi == mi && q.rxReady }

  /** `p` reports that its sender receives with our latest key. */
  predicate Confirms(s: State, p: Mkpdu, mi: Mi) {
    mi == p.basic.mi && p.sakUse.Some? && p.sakUse.value.latestRx && s.latest.ki == Some(p.sakUse.value.latestKi)
  }

  /** Every ready peer was ready before or is the sender, who just confirmed. */
  predicate ReadyFrom(s: State, r: seq<Peer>, p: Mkpdu) {
    forall j | 0 <= j < |r| :: r[j].rxReady ==> ReadyIn(s.peers, r[j].mi) || Confirms(s, p, r[j].mi)
  }

  /** Readiness flags carried over place by place, new peers not ready. */
  predicate Carried(a: seq<Peer>, b: seq<Peer>) {
    && |a| <= |b| && (forall j | 0 <= j < |a| :: b[j].mi == a[j].mi && (b[j].rxReady ==> a[j].rxReady))
    && (forall j | |a| <= j < |b| :: !b[j].rxReady)
  }

  lemma CarriedTrans(a: seq<Peer>, b: seq<Peer>, d: seq<Peer>)
    requires Carried(a, b) && Carried(b, d)
    ensures Carried(a, d)
  {
  }

  lemma CarriedReady(s: State, b: seq<Peer>, p: Mkpdu)
    requires Carried(s.peers, b)
    ensures ReadyFrom(s, b, p)
  {
    forall j | 0 <= j < |b| && b[j].rxReady ensures ReadyIn(s.peers, b[j].mi) {
      assert s.peers[j] in s.peers;
    }
  }

  lemma ReadyFromCarried(s: State, a: seq<Peer>, b: seq<Peer>, p: Mkpdu)
    requires ReadyFrom(s, a, p) && Carried(a, b)
    ensures ReadyFrom(s, b, p)
  {
    hide ReadyIn, Confirms;
    forall j | 0 <= j < |b| && b[j].rxReady ensures ReadyIn(s.peers, b[j].mi) || Confirms(s, p, b[j].mi) {
      assert a[j].rxReady && a[j].mi == b[j].mi;
    }
  }

  lemma {:induction false} LearnCarried(peers: seq<Peer>, own: Mi, ids: seq<PeerId>, now: nat)
    ensures Carried(peers, Learn(peers, own, ids, now))
  {
    if ids != [] {
      LearnCarried(peers, own, ids[..|ids| - 1], now);
    }
  }

  lemma HearCarried(s: State, i: nat, p: Mkpdu, now: nat)
    requires i < |s.peers|
    ensures Carried(s.peers, Hear(s, i, p, now).peers)
  {
    hide KnowsUs, Learn;
    var live := MarkLive(s, i, p, now);
    LearnCarried(live.peers, s.mi, p.livePeers, now);
    assert Carried(s.peers, live.peers);
    CarriedTrans(s.peers, live.peers, LearnPeers(live, i, p, now).peers);
  }

  lemma UseSakReady(s: State, heard: State, i: nat, p: Mkpdu)
    requires Carried(s.peers, heard.peers) && i < |s.peers| && s.peers[i].mi == p.basic.mi
    requires heard.latest.ki == s.latest.ki
    ensures ReadyFrom(s, UseSak(heard, i, p.sakUse).peers, p)
  {
    CarriedReady(s, heard.peers, p);
    var r := UseSak(heard, i, p.sakUse).peers;
    assert heard.peers[i].mi == p.basic.mi;
    forall j | 0 <= j < |r| && r[j].rxReady ensures ReadyIn(s.peers, r[j].mi) || Confirms(s, p, r[j].mi) {
      if r[j] == heard.peers[j] {
        assert heard.peers[j].rxReady;
      } else {
        assert j == i && p.sakUse.value.latestRx;
      }
    }
  }

  lemma TailCarried(c: Crypto, s: State, env: Env)
    ensures Carried(s.peers, InstallPending(EnsureSak(c, s, env)).peers)
  {
    hide InstallRxAll, Scis, MustGenerate;
    var e := EnsureSak(c, s, env);
    assert Carried(s.peers, e.peers);
    assert Carried(e.peers, InstallPending(e).peers);
    CarriedTrans(s.peers, e.peers, InstallPending(e).peers);
  }

  lemma ProcessReady(c: Crypto, s: State, i: nat, p: Mkpdu, env: Env)
    requires i < |s.peers| && s.peers[i].mi == p.basic.mi
    ensures ReadyFrom(s, Process(c, s, i, p, env).peers, p)
  {
    var heard := Hear(s, i, p, env.now);
    HearCarried(s, i, p, env.now);
    HearFrame(s, i, p, env.now);
    hide Hear, ReadyFrom, SameKeyState, InstallPending, EnsureSak;
    assert SameKeyState(s, heard);
    UseSakReady(s, heard, i, p) by {
      HearLatest(s, heard);
    }
    var used := UseSak(heard, i, p.sakUse);
    hide UseSak;
    var taken := TakeSak(c, used, i, p.distSak);
    if taken.Some? {
      TakeCarried(c, used, i, p.distSak);
      TailCarried(c, taken.value, env);
      CarriedTrans(used.peers, taken.value.peers, InstallPending(EnsureSak(c, taken.value, env)).peers);
      ReadyFromCarried(s, used.peers, InstallPending(EnsureSak(c, taken.value, env)).peers, p);
    }
  }

  lemma HearLatest(s: State, heard: State)
    requires SameKeyState(s, heard)
    ensures heard.latest.ki == s.latest.ki
  {
  }

  lemma TakeCarried(c: Crypto, s: State, i: nat, dist: Option<DistSak>)
    requires i < |s.peers|
    ensures var t := TakeSak(c, s, i, dist); t.Some? ==> Carried(s.peers, t.value.peers)
  {
    hide InstallRxAll, Scis, DistSakSupported, IsElected;
  }

  /** Over any MKPDU, a ready peer was ready before or has just confirmed our latest key. */
  lemma PduReady(c: Crypto, s: State, p: Mkpdu, env: Env)
    ensures ReadyFrom(s, HandlePdu(c, s, p, env).peers, p)
  {
    hide Process;
    if Accepts(s, p.basic) {
      var known := Record(s, p.basic, env.now);
      RecordMi(s, p.basic, env.now);
      assert Carried(s.peers, known.peers);
      var i := FindPeer(s.peers, p.basic.mi);
      ProcessReady(c, known, i, p, env);
      RecordReady(s, known, Process(c, known, i, p, env).peers, p);
    } else {
      CarriedReady(s, s.peers, p);
    }
  }

  lemma RecordReady(s: State, known: State, r: seq<Peer>, p: Mkpdu)
    requires Carried(s.peers, known.peers) && known.latest.ki == s.latest.ki && ReadyFrom(known, r, p)
    ensures ReadyFrom(s, r, p)
  {
    forall j | 0 <= j < |r| && r[j].rxReady ensures ReadyIn(s.peers, r[j].mi) || Confirms(s, p, r[j].mi) {
      if ReadyIn(known.peers, r[j].mi) {
        var q :| q in known.peers && q.mi == r[j].mi && q.rxReady;
        var k :| 0 <= k < |known.peers| && known.peers[k] == q;
        assert s.peers[k] in s.peers;
      }
    }
  }

  /** A step that reads no frame makes no peer ready. */
  lemma LocalReady(c: Crypto, s: State, e: Event, env: Env)
    requires !e.Receive?
    ensures forall q | q in Step(c, s, e, env).peers :: q.rxReady ==> ReadyIn(s.peers, q.mi)
  {
    match e
    case ExpirePeers(remove) => hide RemoveRxAll, ExpiredScis;
    case DropSak =>
    case MakeSak => hide InstallRxAll, Scis, MustGenerate;
    case Send =>
  }

  // ------------------------------------------------------------ activation

  /** A key server turns on transmission with its latest key only when every live peer is ready. */
  lemma ActivationNeedsAll(c: Crypto, s: State, p: Mkpdu, env: Env)
    requires Inv(c, s)
    ensures var r := HandlePdu(c, s, p, env);
      r.latest.tx && r.role.isKeyServer && !(s.latest.tx && s.latest.ki == r.latest.ki) ==>
        r.latest.ki == s.latest.ki && AllReady(r.peers)
  {
    if Accepts(s, p.basic) {
      var known := Record(s, p.basic, env.now);
      RecordFrame(s, p.basic, env.now);
      hide Record;
      if !Collides(known, p) {
        ProcessActivation(c, known, FindPeer(s.peers, p.basic.mi), p, env);
        hide Process;
      }
    }
  }

  lemma ProcessActivation(c: Crypto, s: State, i: nat, p: Mkpdu, env: Env)
    requires i < |s.peers|
    ensures var r := Process(c, s, i, p, env);
      r.latest.tx && r.role.isKeyServer && !(s.latest.tx && s.latest.ki == r.latest.ki) ==>
        r.latest.ki == s.latest.ki && AllReady(r.peers)
  {
    var heard := Hear(s, i, p, env.now);
    HearFrame(s, i, p, env.now);
    hide Hear;
    var used := UseSak(heard, i, p.sakUse);
    UseActivation(heard, i, p.sakUse);
    hide UseSak;
    var taken := TakeSak(c, used, i, p.distSak);
    if taken.Some? {
      TailActivation(c, used, taken.value, i, p.distSak, env);
    }
  }

  lemma UseActivation(s: State, i: nat, use: Option<SakUse>)
    requires i < |s.peers|
    ensures var r := UseSak(s, i, use);
      && r.latest.ki == s.latest.ki && r.role.isKeyServer == s.role.isKeyServer
      && (r.latest.tx && !s.latest.tx && r.role.isKeyServer ==> AllReady(r.peers))
  {
    hide IsElected;
  }

  lemma TailActivation(c: Crypto, used: State, taken: State, i: nat, dist: Option<DistSak>, env: Env)
    requires i < |used.peers| && TakeSak(c, used, i, dist) == Some(taken)
    ensures var r := InstallPending(EnsureSak(c, taken, env));
      r.latest.tx && r.role.isKeyServer ==>
        && used.latest.tx && r.latest.ki == used.latest.ki && used.role.isKeyServer
        && (AllReady(used.peers) ==> AllReady(r.peers))
  {
    hide InstallRxAll, Scis, MustGenerate, DistSakSupported;
    var e := EnsureSak(c, taken, env);
    var r := InstallPending(e).peers;
    assert forall j | 0 <= j < |r| :: r[j].rxReady == e.peers[j].rxReady && r[j].live == e.peers[j].live && e.peers[j] in e.peers;
  }
}
