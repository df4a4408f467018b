/** The device of a participant can receive from every live peer under the latest key. */
module MkaReceive {
  import opened Wire
  import opened Mkpdu
  import opened Mka
  import opened MkaInvariant
  import opened MkaEffects
  import opened MkaRuns
  import opened MkaElection
  import opened MkaExact
  import opened MkaSteps
  import Macsec
  import MacsecRuns
  import MacsecSlots

  /** An active receive association under `ki` for the channel and association number. */
  predicate RxAt(dev: Macsec.Desired, sci: u64, an: u8, ki: KeyId) {
    var sa := MacsecRuns.At(dev, MacsecRuns.RxSlot(sci, an));
    sa.Some? && sa.value.keyId == ki && sa.value.active
  }

  /** The device is in order and its receive associations are active. */
  ghost predicate Sound(dev: Macsec.Desired) {
    && MacsecRuns.Settled(dev)
    && forall sci: u64, an: u8 ::
         var sa := MacsecRuns.At(dev, MacsecRuns.RxSlot(sci, an)); sa.Some? ==> sa.value.active
  }

  /** Live peers with a known SCI. */
  predicate Reachable(q: Peer) { q.live && q.sci != 0 }

  /** Where a record says that an association is installed, it is, except perhaps for the SCI `x`. */
  predicate ReceivesBut(s: State, x: u64) {
    s.latest.ki.Some? ==>
      forall q | q in s.peers ::
        Reachable(q) && q.rxInstalled && q.sci != x ==> RxAt(s.dev, q.sci, s.latest.an, s.latest.ki.value)
  }

  /** The same without exception. */
  predicate Receives(s: State) { ReceivesBut(s, 0) }

  lemma ButWeaker(s: State, x: u64)
    requires Receives(s)
    ensures ReceivesBut(s, x)
  {
    hide RxAt;
  }

  /** Every live peer with a known SCI can be received under the latest key. */
  predicate ReceivesAll(s: State) {
    s.latest.ki.Some? ==> forall q | q in s.peers :: Reachable(q) ==> RxAt(s.dev, q.sci, s.latest.an, s.latest.ki.value)
  }

  predicate AllMarked(s: State) { s.latest.ki.Some? ==> forall q | q in s.peers :: Reachable(q) ==> q.rxInstalled }

  lemma MarkedReceives(s: State)
    requires Receives(s) && AllMarked(s)
    ensures ReceivesAll(s)
  {
    hide RxAt;
  }

  // ------------------------------------------------------------------ device

  lemma InstallOne(dev: Macsec.Desired, sci: u64, an: u8, ki: KeyId, sak: bytes)
    requires Sound(dev)
    ensures var r := Macsec.InstallRx(dev, sci, an, ki, sak).desired;
      && Sound(r) && RxAt(r, sci, an, ki)
      && (forall x: u64 :: x != sci ==> RxAt(r, x, an, ki) == RxAt(dev, x, an, ki))
  {
    hide MacsecRuns.At, MacsecRuns.Settled, Macsec.InstallRx;
    var r := Macsec.InstallRx(dev, sci, an, ki, sak).desired;
    MacsecRuns.InstallRxSafe(dev, sci, an, ki, sak);
    forall x: u64, n: u8
      ensures MacsecRuns.At(r, MacsecRuns.RxSlot(x, n))
           == MacsecSlots.SlotAfter(MacsecRuns.At(dev, MacsecRuns.RxSlot(x, n)), Macsec.OpInstallRx(sci, an, ki, sak),
                                    MacsecRuns.RxSlot(x, n))
    {
      MacsecSlots.RxExact(dev, sci, an, ki, sak, MacsecRuns.RxSlot(x, n));
    }
  }

  lemma {:induction false} InstallMany(dev: Macsec.Desired, scis: seq<u64>, an: u8, ki: KeyId, sak: bytes)
    requires Sound(dev)
    ensures var r := InstallRxAll(dev, scis, an, ki, sak);
      && Sound(r) && (forall x | x in scis :: RxAt(r, x, an, ki))
      && (forall x: u64 :: x !in scis ==> RxAt(r, x, an, ki) == RxAt(dev, x, an, ki))
  {
    hide RxAt, Sound;
    if scis != [] {
      var front, last := scis[..|scis| - 1], scis[|scis| - 1];
      assert scis == front + [last];
      InstallMany(dev, front, an, ki, sak);
      InstallOne(InstallRxAll(dev, front, an, ki, sak), last, an, ki, sak);
    }
  }

  /** The transmit side does not touch the receive side. */
  lemma TxKeepsRx(dev: Macsec.Desired, an: u8, ki: KeyId, sak: bytes, active: bool)
    requires Sound(dev)
    ensures var r := Macsec.InstallTx(dev, an, ki, sak, active).desired;
      Sound(r) && forall x: u64, n: u8, k: KeyId :: RxAt(r, x, n, k) == RxAt(dev, x, n, k)
  {
    MacsecRuns.InstallTxSafe(dev, an, ki, sak, active);
    var r := Macsec.InstallTx(dev, an, ki, sak, active).desired;
    assert r.rx == dev.rx;
    hide Macsec.InstallTx, MacsecRuns.Settled, MacsecRuns.SaAt;
    forall x: u64, n: u8 ensures MacsecRuns.At(r, MacsecRuns.RxSlot(x, n)) == MacsecRuns.At(dev, MacsecRuns.RxSlot(x, n)) {
    }
  }

  lemma ActivateKeepsRx(dev: Macsec.Desired, an: u8)
    requires Sound(dev)
    ensures var r := Macsec.ActivateTx(dev, an).desired;
      Sound(r) && forall x: u64, n: u8, k: KeyId :: RxAt(r, x, n, k) == RxAt(dev, x, n, k)
  {
    MacsecRuns.ActivateSettled(dev, an);
    var r := Macsec.ActivateTx(dev, an).desired;
    assert r.rx == dev.rx;
    hide Macsec.Activate, MacsecRuns.Settled, MacsecRuns.SaAt;
    forall x: u64, n: u8 ensures MacsecRuns.At(r, MacsecRuns.RxSlot(x, n)) == MacsecRuns.At(dev, MacsecRuns.RxSlot(x, n)) {
    }
  }

  // --------------------------------------------------------------- new keys

  lemma {:induction false} ScisAre(peers: seq<Peer>, pendingOnly: bool)
    ensures forall x :: x in Scis(peers, pendingOnly) <==>
      exists q | q in peers :: Reachable(q) && q.sci == x && (pendingOnly ==> !q.rxInstalled)
  {
    if peers != [] {
      var front, last := peers[..|peers| - 1], peers[|peers| - 1];
      assert peers == front + [last];
      ScisAre(front, pendingOnly);
    }
  }

  lemma ResetAdverts(peers: seq<Peer>, installed: bool)
    ensures var r := ResetRx(peers, installed);
      forall i | 0 <= i < |peers| :: r[i].live == peers[i].live && r[i].sci == peers[i].sci
  {
  }

  /** Of a list of peers whose reachable SCIs are all listed, the marked one is received from entirely. */
  lemma MarkedAll(peers: seq<Peer>, scis: seq<u64>, dev: Macsec.Desired, an: u8, ki: KeyId)
    requires forall q | q in peers :: Reachable(q) ==> q.sci in scis
    requires forall x | x in scis :: RxAt(dev, x, an, ki)
    ensures forall q | q in MarkInstalled(peers, scis, true) :: Reachable(q) ==> q.rxInstalled && RxAt(dev, q.sci, an, ki)
  {
    hide RxAt;
    var r := MarkInstalled(peers, scis, true);
    forall q | q in r && Reachable(q) ensures q.rxInstalled && RxAt(dev, q.sci, an, ki) {
      var j :| 0 <= j < |r| && r[j] == q;
      assert peers[j] in peers;
    }
  }

  lemma ReachableListed(peers: seq<Peer>)
    ensures forall q | q in peers :: Reachable(q) ==> q.sci in Scis(peers, false)
  {
    ScisAre(peers, false);
  }

  /** A key server that makes a key can receive from everybody live with it at once. */
  lemma GenerateReceives(c: Crypto, s: State, env: Env)
    requires Sound(s.dev)
    ensures var r := Generate(c, s, env); Sound(r.dev) && Receives(r) && AllMarked(r)
  {
    hide RxAt, Sound, InstallRxAll, Scis, Macsec.InstallTx, MarkInstalled;
    var an: u8 := (s.latest.an + 1) % 4;
    var ki := KeyId(s.mi, s.nextKn);
    var peers := ResetRx(s.peers, true);
    var scis := Scis(peers, false);
    TxKeepsRx(s.dev, an, ki, env.freshSak, false);
    var dev := Macsec.InstallTx(s.dev, an, ki, env.freshSak, false).desired;
    InstallMany(dev, scis, an, ki, env.freshSak);
    ReachableListed(peers);
    MarkedAll(peers, scis, InstallRxAll(dev, scis, an, ki, env.freshSak), an, ki);
  }

  /** Its marks are then exactly on the live peers with a known SCI. */
  lemma GenerateMarks(c: Crypto, s: State, env: Env)
    ensures forall q | q in Generate(c, s, env).peers :: q.rxInstalled <==> Reachable(q)
  {
    hide InstallRxAll, Scis, Macsec.InstallTx, Reachable;
    var peers := ResetRx(s.peers, true);
    var r := Generate(c, s, env).peers;
    ScisAre(peers, false);
    forall q | q in r ensures q.rxInstalled <==> Reachable(q) {
      var j :| 0 <= j < |r| && r[j] == q;
      assert peers[j] in peers && !peers[j].rxInstalled;
      ReachableIs(peers[j], q);
      SciKnown(peers, Scis(peers, false));
    }
  }

  lemma ReachableIs(p: Peer, q: Peer)
    requires p.live == q.live && p.sci == q.sci
    ensures Reachable(p) == Reachable(q) && (Reachable(p) <==> p.live && p.sci != 0)
  {
  }

  lemma SciKnown(peers: seq<Peer>, scis: seq<u64>)
    requires forall x | x in scis :: exists q | q in peers :: Reachable(q) && q.sci == x
    ensures 0 !in scis
  {
  }

  /** So can a member that takes one. */
  lemma AdoptReceives(s: State, i: nat, d: DistSak, sak: bytes)
    requires i < |s.peers| && Sound(s.dev)
    ensures var r := Adopt(s, i, d, sak); Sound(r.dev) && Receives(r) && AllMarked(r)
  {
    hide RxAt, Sound, InstallRxAll, Scis, Macsec.InstallTx, MarkInstalled;
    var ki := KeyId(s.peers[i].mi, d.kn);
    var live := Scis(s.peers, false);
    var scis := if s.peers[i].sci in live then live else live + [s.peers[i].sci];
    InstallMany(s.dev, scis, d.an, ki, sak);
    var dev := InstallRxAll(s.dev, scis, d.an, ki, sak);
    TxKeepsRx(dev, d.an, ki, sak, false);
    ReachableListed(s.peers);
    MarkedAll(s.peers, scis, Macsec.InstallTx(dev, d.an, ki, sak, false).desired, d.an, ki);
  }

  // -------------------------------------------------------- the same key

  /** What is still missing is installed for every live peer, and nothing else. */
  lemma PendingReceives(c: Crypto, s: State, x: u64)
    requires GoodKeys(c, s) && Sound(s.dev) && ReceivesBut(s, x)
    ensures var r := InstallPending(s);
      && Sound(r.dev) && ReceivesBut(r, x) && AllMarked(r)
      && (s.latest.ki.Some? ==>
            var an, ki := s.latest.an, s.latest.ki.value;
            RxAt(r.dev, x, an, ki) <==> RxAt(s.dev, x, an, ki) || x in Scis(s.peers, true))
  {
    hide RxAt, Sound, InstallRxAll, Scis;
    var pending := Scis(s.peers, true);
    ScisAre(s.peers, true);
    if s.latest.ki.Some? && pending != [] {
      var an, ki := s.latest.an, s.latest.ki.value;
      InstallMany(s.dev, pending, an, ki, s.sak.value);
      var r := InstallPending(s);
      forall q | q in r.peers && Reachable(q) ensures q.rxInstalled && (q.sci != x ==> RxAt(r.dev, q.sci, an, ki)) {
        var j :| 0 <= j < |r.peers| && r.peers[j] == q;
        var was := s.peers[j];
        assert was in s.peers && Reachable(was) && was.sci == q.sci;
      }
    } else if s.latest.ki.Some? {
      forall q | q in s.peers && Reachable(q) ensures q.rxInstalled {
        assert !q.rxInstalled ==> q.sci in pending;
      }
    }
  }

  /** A mark on the record of the sender is true of the SCI it sends. */
  predicate Stable(s: State, b: Basic) {
    forall q | q in s.peers ::
      q.mi == b.mi && q.rxInstalled && b.sci != 0 && s.latest.ki.Some? ==> RxAt(s.dev, b.sci, s.latest.an, s.latest.ki.value)
  }

  /** Recording the sender keeps what is received. */
  lemma RecordReceives(s: State, b: Basic, now: nat, x: u64)
    requires Receives(s) && (Stable(s, b) || x == b.sci)
    ensures var known := Record(s, b, now); var i := FindPeer(s.peers, b.mi);
      && i < |known.peers| && ReceivesBut(known, x) && known.dev == s.dev && known.latest == s.latest
      && (var q := known.peers[i];
          s.latest.ki.Some? && q.rxInstalled && q.sci != 0 && q.sci != x ==> RxAt(s.dev, q.sci, s.latest.an, s.latest.ki.value))
  {
    hide RxAt;
    var known, i := Record(s, b, now), FindPeer(s.peers, b.mi);
    forall q | q in known.peers && Reachable(q) && q.rxInstalled && q.sci != x && s.latest.ki.Some?
      ensures RxAt(known.dev, q.sci, s.latest.an, s.latest.ki.value)
    {
      var j :| 0 <= j < |known.peers| && known.peers[j] == q;
      assert j < |s.peers| && s.peers[j] in s.peers;
    }
  }

  lemma {:induction false} LearnNew(peers: seq<Peer>, own: Mi, ids: seq<PeerId>, now: nat)
    ensures forall q | q in Learn(peers, own, ids, now) :: q in peers || !q.live
  {
    if ids != [] {
      LearnNew(peers, own, ids[..|ids| - 1], now);
    }
  }

  lemma HearReceives(s: State, i: nat, p: Mkpdu, now: nat, x: u64)
    requires i < |s.peers| && ReceivesBut(s, x)
    requires var q := s.peers[i];
      s.latest.ki.Some? && q.rxInstalled && q.sci != 0 && q.sci != x ==> RxAt(s.dev, q.sci, s.latest.an, s.latest.ki.value)
    ensures var r := Hear(s, i, p, now); ReceivesBut(r, x) && r.dev == s.dev
  {
    hide RxAt, KnowsUs, Learn, BestOf;
    var marked := MarkLive(s, i, p, now);
    assert ReceivesBut(marked, x);
    LearnNew(marked.peers, s.mi, p.livePeers, now);
    var r := Hear(s, i, p, now);
    assert r.latest == s.latest && r.dev == s.dev;
    assert forall q | q in r.peers && Reachable(q) :: q in marked.peers;
  }

  lemma UseReceives(s: State, i: nat, use: Option<SakUse>, x: u64)
    requires i < |s.peers| && Sound(s.dev) && ReceivesBut(s, x)
    ensures var r := UseSak(s, i, use);
      && Sound(r.dev) && ReceivesBut(r, x) && forall y: u64, n: u8, k: KeyId :: RxAt(r.dev, y, n, k) == RxAt(s.dev, y, n, k)
  {
    hide RxAt, Sound, AllReady, IsElected;
    ActivateKeepsRx(s.dev, s.latest.an);
    var r := UseSak(s, i, use);
    forall q | q in r.peers && Reachable(q) && q.rxInstalled && q.sci != x && r.latest.ki.Some?
      ensures RxAt(r.dev, q.sci, r.latest.an, r.latest.ki.value)
    {
      var j :| 0 <= j < |r.peers| && r.peers[j] == q;
      assert s.peers[j] in s.peers && s.peers[j].live == q.live && s.peers[j].sci == q.sci && s.peers[j].rxInstalled == q.rxInstalled;
    }
  }

  /** The MKPDU distributes a key that a member is meant to take and cannot. */
  predicate Unusable(c: Crypto, s: State, role: Role, sender: Peer, p: Mkpdu) {
    && p.distSak.Some? && !role.isKeyServer && sender.live && FromElected(role, sender)
    && (var d := p.distSak.value;
        && d.wrappedSak != []
        && !(&& d.confidentialityOffset == (if s.cfg.encrypt then 1 else 0)
             && (d.cipherSuite == None || d.cipherSuite == Some(0x0080_0200_0100_0001))
             && (s.latest.ki == Some(KeyId(sender.mi, d.kn)) || Unwraps(c, s.cfg, d))))
  }

  lemma UnusableIs(c: Crypto, s: State, i: nat, p: Mkpdu)
    requires i < |s.peers|
    ensures TakeSak(c, s, i, p.distSak).None? <==> Unusable(c, s, s.role, s.peers[i], p)
  {
    hide Adopt;
  }

  lemma TakeReceives(c: Crypto, s: State, i: nat, p: Mkpdu, x: u64)
    requires i < |s.peers| && Sound(s.dev) && ReceivesBut(s, x)
    ensures var t := TakeSak(c, s, i, p.distSak);
      t.Some? ==> Sound(t.value.dev) && ReceivesBut(t.value, x) && (t.value != s ==> Receives(t.value))
  {
    hide RxAt, Sound, Adopt, Receives, ReceivesBut, DistSakSupported, IsElected;
    var t := TakeSak(c, s, i, p.distSak);
    if t.Some? && t.value != s {
      AdoptReceives(s, i, p.distSak.value, c.unwrap(s.cfg.kek, p.distSak.value.wrappedSak).value);
      ButWeaker(t.value, x);
    }
  }

  lemma EnsureReceives(c: Crypto, s: State, env: Env, x: u64)
    requires Sound(s.dev) && ReceivesBut(s, x)
    ensures var r := EnsureSak(c, s, env); Sound(r.dev) && ReceivesBut(r, x) && (r != s ==> Receives(r))
  {
    hide RxAt, Sound, Generate, Receives, ReceivesBut, MustGenerate;
    if MustGenerate(s, env.now) {
      GenerateReceives(c, s, env);
      ButWeaker(Generate(c, s, env), x);
    }
  }

  /** What an accepted MKPDU leaves of the receive side, but for the SCI of a sender with an untrue mark. */
  lemma ReceiveStages(c: Crypto, s: State, p: Mkpdu, env: Env, x: u64)
    requires Inv(c, s) && Sound(s.dev) && Receives(s) && (Stable(s, p.basic) || x == p.basic.sci)
    requires ForUs(s, p.basic) && !ClaimsOurs(s, p) && (p.distSak.Some? ==> p.distSak.value.an < 4)
    ensures var r := HandlePdu(c, s, p, env);
      && Sound(r.dev) && ReceivesBut(r, x) && HasRecord(r, p.basic.mi)
      && (!Unusable(c, s, r.role, SenderOf(r, p.basic.mi), p) ==> AllMarked(r))
      && (r.nextKn != s.nextKn || r.latest.ki != s.latest.ki ==> Receives(r))
      && (r.nextKn == s.nextKn && r.latest.ki == s.latest.ki && s.latest.ki.Some?
          && !Unusable(c, s, r.role, SenderOf(r, p.basic.mi), p) ==>
            (RxAt(r.dev, x, s.latest.an, s.latest.ki.value) <==>
               || RxAt(s.dev, x, s.latest.an, s.latest.ki.value)
               || x in Scis(Hear(Record(s, p.basic, env.now), FindPeer(s.peers, p.basic.mi), p, env.now).peers, true)))
  {
    hide HandlePdu, Hear, Record, Inv, ForUs, ClaimsOurs, UseSak, TakeSak, EnsureSak, InstallPending, SameVote, FindPeer,
         Sound, Receives, ReceivesBut, Stable, Unusable, RxAt, AllMarked, ReceivesAll, Brings, Generated, MustMake, Scis;
    Stages(c, s, p, env);
    KeyStages(c, s, p, env);
    HeardKeys(c, s, p, env);
    var i, known := FindPeer(s.peers, p.basic.mi), Record(s, p.basic, env.now);
    var heard, r := Hear(known, i, p, env.now), HandlePdu(c, s, p, env);
    RecordReceives(s, p.basic, env.now, x);
    HearReceives(known, i, p, env.now, x);
    var used := UseSak(heard, i, p.sakUse);
    UseReceives(heard, i, p.sakUse, x);
    UseIs(heard, i, p);
    UseSakKeeps(c, heard, i, p.sakUse);
    TakeReceives(c, used, i, p, x);
    UnusableIs(c, used, i, p);
    UnusableSame(c, s, heard, used, r, i, p);
    VotePlace(heard, i, p.basic.mi);
    var t := TakeSak(c, used, i, p.distSak);
    if t.Some? {
      LastStages(c, used, i, p, env, x);
      UseScis(heard, i, p);
    }
  }

  /** The stages from a Distributed SAK on. */
  lemma LastStages(c: Crypto, s: State, i: nat, p: Mkpdu, env: Env, x: u64)
    requires Inv(c, s) && i < |s.peers| && (p.distSak.Some? ==> p.distSak.value.an < 4)
    requires Sound(s.dev) && ReceivesBut(s, x) && TakeSak(c, s, i, p.distSak).Some?
    ensures var r := InstallPending(EnsureSak(c, TakeSak(c, s, i, p.distSak).value, env));
      && Sound(r.dev) && ReceivesBut(r, x) && AllMarked(r)
      && (r.nextKn != s.nextKn || r.latest.ki != s.latest.ki ==> Receives(r))
      && (r.nextKn == s.nextKn && r.latest.ki == s.latest.ki && s.latest.ki.Some? ==>
            (RxAt(r.dev, x, s.latest.an, s.latest.ki.value) <==>
               RxAt(s.dev, x, s.latest.an, s.latest.ki.value) || x in Scis(s.peers, true)))
  {
    hide Inv, TakeSak, EnsureSak, InstallPending, SameVote, Sound, Receives, ReceivesBut, RxAt, AllMarked, Brings, Generated,
         MustMake, Scis;
    var t := TakeSak(c, s, i, p.distSak).value;
    TakeReceives(c, s, i, p, x);
    TakeGood(c, s, i, p);
    TakeIs(c, s, i, p);
    EnsureReceives(c, t, env, x);
    EnsureSakKeeps(c, t, env);
    EnsureIs(c, t, env);
    var made := EnsureSak(c, t, env);
    KeysOf(c, made);
    PendingReceives(c, made, x);
    PendingIs(made);
    if made != s {
      if t != s && made == t {
        assert Receives(made);
      }
      PendingKeepsAll(c, made);
    }
  }

  lemma PendingKeepsAll(c: Crypto, s: State)
    requires GoodKeys(c, s) && Sound(s.dev) && Receives(s)
    ensures Receives(InstallPending(s))
  {
    hide Sound, InstallPending, AllMarked, RxAt, Scis, GoodKeys;
    PendingReceives(c, s, 0);
  }

  lemma UseScis(s: State, i: nat, p: Mkpdu)
    requires i < |s.peers|
    ensures forall x :: x in Scis(UseSak(s, i, p.sakUse).peers, true) <==> x in Scis(s.peers, true)
  {
    UseIs(s, i, p);
    hide UseSak, SameVote, Scis, LiveAreReady;
    var r := UseSak(s, i, p.sakUse);
    ScisAlike(s.peers, r.peers);
    ScisAlike(r.peers, s.peers);
  }

  lemma ScisAlike(a: seq<Peer>, b: seq<Peer>)
    requires |a| == |b|
    requires forall j | 0 <= j < |a| :: a[j].live == b[j].live && a[j].sci == b[j].sci && a[j].rxInstalled == b[j].rxInstalled
    ensures forall x | x in Scis(a, true) :: x in Scis(b, true)
  {
    hide Scis;
    ScisAre(a, true);
    ScisAre(b, true);
    forall x | x in Scis(a, true) ensures x in Scis(b, true) {
      var j :| 0 <= j < |a| && Reachable(a[j]) && a[j].sci == x && !a[j].rxInstalled;
      assert b[j] in b;
    }
  }

  /** Another live record has the SCI of the sender. */
  predicate Shared(s: State, b: Basic) { exists q | q in s.peers :: q.mi != b.mi && q.live && q.sci == b.sci }

  /** A new key came with the MKPDU. */
  predicate NewKey(s: State, r: State) { r.nextKn != s.nextKn || r.latest.ki != s.latest.ki }

  /** After an accepted MKPDU, unless it distributes a key that should be taken and cannot, every live peer with a known
      SCI can be received under the latest key, if and only if the key is new, the mark on the sender's record was true
      of its SCI, another live record has that SCI, or the sender is not live. */
  lemma ReadyToReceive(c: Crypto, s: State, p: Mkpdu, env: Env)
    requires Inv(c, s) && Sound(s.dev) && Receives(s)
    requires ForUs(s, p.basic) && !ClaimsOurs(s, p) && (p.distSak.Some? ==> p.distSak.value.an < 4)
    ensures var r := HandlePdu(c, s, p, env);
      && Sound(r.dev) && HasRecord(r, p.basic.mi) && (Stable(s, p.basic) ==> Receives(r))
      && (!Unusable(c, s, r.role, SenderOf(r, p.basic.mi), p) ==>
            (ReceivesAll(r) <==>
               NewKey(s, r) || Stable(s, p.basic) || Shared(s, p.basic) || !SenderOf(r, p.basic.mi).live))
  {
    hide HandlePdu, Hear, Record, Inv, ForUs, ClaimsOurs, SameVote, FindPeer, Sound, ReceivesBut, Stable, Unusable, RxAt,
         AllMarked, ReceivesAll, Scis, Shared;
    var b, r := p.basic, HandlePdu(c, s, p, env);
    if Stable(s, b) {
      ReceiveStages(c, s, p, env, 0);
    } else {
      ReceiveStages(c, s, p, env, b.sci);
    }
    if !Unusable(c, s, r.role, SenderOf(r, b.mi), p) {
      if NewKey(s, r) || Stable(s, b) {
        MarkedReceives(r);
      } else {
        AdoptionExact(c, s, p, env);
        UntrueMark(c, s, p, env);
      }
    }
  }

  /** The case of an untrue mark and the same key. */
  lemma UntrueMark(c: Crypto, s: State, p: Mkpdu, env: Env)
    requires Inv(c, s) && Receives(s) && !Stable(s, p.basic) && ForUs(s, p.basic) && !ClaimsOurs(s, p)
    requires var r := HandlePdu(c, s, p, env); var heard := Hear(Record(s, p.basic, env.now), FindPeer(s.peers, p.basic.mi), p, env.now);
      && ReceivesBut(r, p.basic.sci) && AllMarked(r) && r.latest.ki == s.latest.ki && r.latest.an == s.latest.an
      && (s.latest.ki.Some? ==>
            (RxAt(r.dev, p.basic.sci, s.latest.an, s.latest.ki.value) <==>
               RxAt(s.dev, p.basic.sci, s.latest.an, s.latest.ki.value) || p.basic.sci in Scis(heard.peers, true)))
    ensures var r := HandlePdu(c, s, p, env);
      && HasRecord(r, p.basic.mi)
      && (ReceivesAll(r) <==> Shared(s, p.basic) || !SenderOf(r, p.basic.mi).live)
  {
    var b, i := p.basic, FindPeer(s.peers, p.basic.mi);
    UntrueIs(c, s, b);
    hide HandlePdu, Hear, Record, Inv, ForUs, ClaimsOurs, SameVote, RxAt, Stable, Scis, FindPeer;
    Stages(c, s, p, env);
    var known, r := Record(s, b, env.now), HandlePdu(c, s, p, env);
    var heard := Hear(known, i, p, env.now);
    SenderExact(c, s, p, env);
    VoteFields(heard, r, i);
    LiveOthers(c, s, p, env);
    HeardMark(s, p, env.now);
    var an, ki := s.latest.an, s.latest.ki.value;
    NoFalseMark(s, b, an, ki);
    PendingIffShared(s, heard, i, b);
    if Shared(s, b) {
      assert RxAt(r.dev, b.sci, an, ki);
    } else if SenderOf(r, b.mi).live {
      assert SenderOf(r, b.mi) in r.peers && Reachable(SenderOf(r, b.mi));
    } else {
      NobodyElse(s, heard, r, i, b);
    }
  }

  /** Live records with the SCI of an untrue mark are not marked themselves. */
  lemma NoFalseMark(s: State, b: Basic, an: u8, ki: KeyId)
    requires Receives(s) && s.latest.ki == Some(ki) && s.latest.an == an && b.sci != 0 && !RxAt(s.dev, b.sci, an, ki)
    ensures forall q | q in s.peers && q.live && q.sci == b.sci :: !q.rxInstalled
  {
    hide RxAt;
  }

  /** So the SCI is pending exactly when another live record has it. */
  lemma PendingIffShared(s: State, heard: State, i: nat, b: Basic)
    requires i < |heard.peers| && heard.peers[i].rxInstalled && b.sci != 0
    requires forall q | q in s.peers && q.live && q.sci == b.sci :: !q.rxInstalled
    requires forall q | q in s.peers && q.mi != b.mi :: q in heard.peers
    requires forall j | 0 <= j < |heard.peers| && j != i && heard.peers[j].live ::
      heard.peers[j] in s.peers && heard.peers[j].mi != b.mi
    ensures b.sci in Scis(heard.peers, true) <==> Shared(s, b)
  {
    hide Scis;
    ScisAre(heard.peers, true);
    if b.sci in Scis(heard.peers, true) {
      var j :| 0 <= j < |heard.peers| && Reachable(heard.peers[j]) && heard.peers[j].sci == b.sci && !heard.peers[j].rxInstalled;
      assert heard.peers[j] in s.peers;
    }
    if Shared(s, b) {
      var q :| q in s.peers && q.mi != b.mi && q.live && q.sci == b.sci;
      assert q in heard.peers && Reachable(q);
    }
  }

  /** If neither the sender nor another record with its SCI is live, nobody with it can be reached. */
  lemma NobodyElse(s: State, heard: State, r: State, i: nat, b: Basic)
    requires SameVote(heard, r) && i < |heard.peers| && !heard.peers[i].live && !Shared(s, b)
    requires forall j | 0 <= j < |heard.peers| && j != i && heard.peers[j].live ::
      heard.peers[j] in s.peers && heard.peers[j].mi != b.mi
    ensures forall q | q in r.peers && Reachable(q) :: q.sci != b.sci
  {
    forall q | q in r.peers && Reachable(q) ensures q.sci != b.sci {
      hide SameVote;
      VoteLive(heard, r, q);
    }
  }

  lemma UntrueIs(c: Crypto, s: State, b: Basic)
    requires Inv(c, s) && !Stable(s, b)
    ensures s.latest.ki.Some? && b.sci != 0 && !RxAt(s.dev, b.sci, s.latest.an, s.latest.ki.value)
    ensures HasRecord(s, b.mi) && SenderOf(s, b.mi).rxInstalled
  {
    hide RxAt;
    var q :| q in s.peers && q.mi == b.mi && q.rxInstalled;
    FindUnique(s.peers, s.mi, q);
  }

  lemma HeardMark(s: State, p: Mkpdu, now: nat)
    requires HasRecord(s, p.basic.mi)
    ensures var i, known := FindPeer(s.peers, p.basic.mi), Record(s, p.basic, now);
      && i < |known.peers|
      && (var heard := Hear(known, i, p, now);
          i < |heard.peers| && heard.peers[i].rxInstalled == s.peers[i].rxInstalled && heard.peers[i].sci == p.basic.sci
          && heard.peers[i].mi == p.basic.mi)
  {
    var i, known := FindPeer(s.peers, p.basic.mi), Record(s, p.basic, now);
    assert known.peers[i].rxInstalled == s.peers[i].rxInstalled;
    RecordIs(s, p.basic, now);
    hide Record, FindPeer, HeardUs;
    HearIs(known, i, p, now);
  }

  /** After liveness and the election, live records other than the sender's are the ones from before. */
  lemma LiveOthers(c: Crypto, s: State, p: Mkpdu, env: Env)
    requires Inv(c, s) && ForUs(s, p.basic) && !ClaimsOurs(s, p)
    ensures var i, known := FindPeer(s.peers, p.basic.mi), Record(s, p.basic, env.now);
      && i < |known.peers|
      && (var heard := Hear(known, i, p, env.now);
          && (forall q | q in s.peers && q.mi != p.basic.mi :: q in heard.peers)
          && (forall j | 0 <= j < |heard.peers| && j != i && heard.peers[j].live :: heard.peers[j] in s.peers && heard.peers[j].mi != p.basic.mi))
  {
    hide ForUs, ClaimsOurs, HandlePdu, SameVote, Inv;
    Stages(c, s, p, env);
    var i, known := FindPeer(s.peers, p.basic.mi), Record(s, p.basic, env.now);
    var heard := Hear(known, i, p, env.now);
    HearKeepsReady(s, p, env.now);
    RecordIs(s, p.basic, env.now);
    DistinctMis(c, heard);
    hide Record;
    HeardLive(known, i, p, env.now);
    hide Hear, FindPeer;
    forall j | 0 <= j < |heard.peers| && j != i && heard.peers[j].live
      ensures heard.peers[j] in s.peers && heard.peers[j].mi != p.basic.mi
    {
      assert j < |known.peers| && heard.peers[j] == known.peers[j];
      assert j < |s.peers|;
    }
  }

  lemma DistinctMis(c: Crypto, s: State)
    requires Inv(c, s)
    ensures forall i, j | 0 <= i < j < |s.peers| :: s.peers[i].mi != s.peers[j].mi
  {
  }

  lemma {:induction false} LearnLive(peers: seq<Peer>, own: Mi, ids: seq<PeerId>, now: nat)
    ensures var r := Learn(peers, own, ids, now);
      && |peers| <= |r| && (forall j | 0 <= j < |peers| :: r[j] == peers[j])
      && (forall j | |peers| <= j < |r| :: !r[j].live)
  {
    if ids != [] {
      LearnLive(peers, own, ids[..|ids| - 1], now);
    }
  }

  lemma HeardLive(s: State, i: nat, p: Mkpdu, now: nat)
    requires i < |s.peers|
    ensures var r := Hear(s, i, p, now);
      && |s.peers| <= |r.peers| && (forall j | 0 <= j < |s.peers| && j != i :: r.peers[j] == s.peers[j])
      && (forall j | |s.peers| <= j < |r.peers| :: !r.peers[j].live)
  {
    hide KnowsUs, BestOf, Learn;
    var marked := MarkLive(s, i, p, now);
    LearnLive(marked.peers, s.mi, p.livePeers, now);
  }

  lemma VoteLive(s: State, r: State, q: Peer)
    requires SameVote(s, r) && q in r.peers && q.live
    ensures exists j :: 0 <= j < |s.peers| && s.peers[j].live && s.peers[j].sci == q.sci && s.peers[j].mi == q.mi
  {
    var j :| 0 <= j < |r.peers| && r.peers[j] == q;
    assert AdvertOf(r.peers[j]) == AdvertOf(s.peers[j]);
    assert s.peers[j].live && s.peers[j].sci == q.sci && s.peers[j].mi == q.mi;
  }

  lemma KeysOf(c: Crypto, s: State)
    requires Inv(c, s)
    ensures GoodKeys(c, s)
  {
  }

  lemma TakeGood(c: Crypto, s: State, i: nat, p: Mkpdu)
    requires Inv(c, s) && i < |s.peers| && (p.distSak.Some? ==> p.distSak.value.an < 4)
    ensures var t := TakeSak(c, s, i, p.distSak); t.Some? ==> Inv(c, t.value)
  {
    hide Inv, Adopt, DistSakSupported;
    var t := TakeSak(c, s, i, p.distSak);
    if t.Some? && t.value != s {
      AdoptKeeps(c, s, i, p.distSak.value, c.unwrap(s.cfg.kek, p.distSak.value.wrappedSak).value);
    }
  }

  lemma UnusableSame(c: Crypto, s: State, heard: State, used: State, r: State, i: nat, p: Mkpdu)
    requires SameVote(heard, r) && SameVote(heard, used) && i < |heard.peers|
    requires used.latest.ki == s.latest.ki && used.cfg == s.cfg
    ensures i < |r.peers| && i < |used.peers|
    ensures Unusable(c, s, r.role, r.peers[i], p) == Unusable(c, used, used.role, used.peers[i], p)
  {
    assert AdvertOf(r.peers[i]) == AdvertOf(heard.peers[i]);
    assert AdvertOf(used.peers[i]) == AdvertOf(heard.peers[i]);
  }

  // ---------------------------------------------------------------- new keys

  /** A generated or newly taken key can be received from every live peer with a known SCI at once, whatever the
      records said before. */
  lemma NewKeyReceives(c: Crypto, s: State, env: Env)
    requires Sound(s.dev) && MustMake(s, env.now)
    ensures var r := Step(c, s, MakeSak, env);
      && Sound(r.dev) && ReceivesAll(r) && r.latest.ki == Some(KeyId(s.mi, s.nextKn))
      && forall q | q in r.peers :: q.rxInstalled <==> Reachable(q)
  {
    hide RxAt, Sound, Receives, AllMarked, ReceivesAll;
    GenerateReceives(c, s, env);
    GenerateMarks(c, s, env);
    assert MustMake(s, env.now) <==> MustGenerate(s, env.now);
    GenerationExact(c, s, env);
    hide MustMake, MustGenerate, Generate;
    MarkedReceives(Generate(c, s, env));
  }

  // ------------------------------------------------------------------- runs

  /** No channel of a peer that is about to be forgotten is that of a live peer that stays. */
  predicate Unshared(peers: seq<Peer>, now: nat) {
    forall q, w | q in peers && w in peers ::
      now >= q.lastSeen + 6_000_000_000 && now < w.lastSeen + 6_000_000_000 && Reachable(w) ==> q.sci != w.sci
  }

  /** What a step relies on: a mark on a sender's record is true of its SCI, and no shared channel is removed. */
  predicate Orderly(c: Crypto, s: State, e: Event, env: Env) {
    match e
    case Receive(f) =>
      var r := Parse(c, f.payload, BE(6, f.dst), BE(6, f.src), s.cfg.ick);
      r.Ok? && r.value.Some? ==> Stable(s, r.value.value.basic)
    case ExpirePeers(remove) => remove ==> Unshared(s.peers, env.now)
    case _ => true
  }

  lemma {:induction false} RemoveKeeps(dev: Macsec.Desired, scis: seq<u64>)
    requires Sound(dev)
    ensures var r := RemoveRxAll(dev, scis);
      && Sound(r) && (forall x: u64, n: u8, k: KeyId :: x !in scis && RxAt(dev, x, n, k) ==> RxAt(r, x, n, k))
  {
    hide RxAt, Sound;
    if scis != [] {
      var front, last := scis[..|scis| - 1], scis[|scis| - 1];
      assert scis == front + [last];
      RemoveKeeps(dev, front);
      RemoveOne(RemoveRxAll(dev, front), last);
    }
  }

  lemma RemoveOne(dev: Macsec.Desired, sci: u64)
    requires Sound(dev)
    ensures var r := Macsec.RemoveRx(dev, sci).desired;
      && Sound(r) && (forall x: u64, n: u8, k: KeyId :: x != sci && RxAt(dev, x, n, k) ==> RxAt(r, x, n, k))
  {
    hide MacsecRuns.At, MacsecRuns.Settled;
    var r := Macsec.RemoveRx(dev, sci).desired;
    MacsecRuns.RemoveRxSafe(dev, sci);
    forall x: u64, n: u8
      ensures MacsecRuns.At(r, MacsecRuns.RxSlot(x, n))
           == MacsecSlots.SlotAfter(MacsecRuns.At(dev, MacsecRuns.RxSlot(x, n)), Macsec.OpRemoveRx(sci), MacsecRuns.RxSlot(x, n))
    {
      MacsecSlots.PerformExact(dev, Macsec.OpRemoveRx(sci), MacsecRuns.RxSlot(x, n));
    }
  }

  lemma ExpireFields(s: State, now: nat)
    ensures var r := Expire(s, now); r.dev == s.dev && r.latest == s.latest && r.peers == Alive(s.peers, now)
  {
    AliveIs(s.peers, now);
    hide BestOf, HasLivePeer, Alive;
  }

  lemma ExpireReceives(c: Crypto, s: State, remove: bool, env: Env)
    requires Sound(s.dev) && Receives(s) && (remove ==> Unshared(s.peers, env.now))
    ensures var r := Step(c, s, ExpirePeers(remove), env); Sound(r.dev) && Receives(r)
  {
    hide RxAt, Sound, RemoveRxAll, ExpiredScis, Expire, Alive;
    ExpireFields(s, env.now);
    AliveIs(s.peers, env.now);
    ExpiredAre(s.peers, env.now);
    RemoveKeeps(s.dev, ExpiredScis(s.peers, env.now));
  }

  lemma PduReceives(c: Crypto, s: State, p: Mkpdu, env: Env)
    requires Inv(c, s) && Sound(s.dev) && Receives(s) && Stable(s, p.basic) && (p.distSak.Some? ==> p.distSak.value.an < 4)
    ensures var r := HandlePdu(c, s, p, env); Sound(r.dev) && Receives(r)
  {
    hide Inv, Sound, Stable, RxAt, Record, Process, Collides, Accepts;
    ForUsIsGood(c, s, p.basic);
    if p.basic.ckn == s.cfg.ckn && p.basic.mi == s.mi {
      assert HandlePdu(c, s, p, env) == ResetMi(s, env.freshMi);
    } else if Accepts(s, p.basic) {
      HandledIs(c, s, p, env);
      RecordReceives(s, p.basic, env.now, 0);
      CollidesAfterRecord(s, p, env.now);
      if !Collides(s, p) {
        ClaimsIs(s, p);
        ReadyToReceive(c, s, p, env);
      }
    }
  }

  lemma ClaimsIs(s: State, p: Mkpdu)
    ensures Collides(s, p) == ClaimsOurs(s, p)
  {
  }

  lemma FrameReceives(c: Crypto, s: State, f: Frame, env: Env)
    requires Inv(c, s) && Sound(s.dev) && Receives(s) && Orderly(c, s, Receive(f), env)
    ensures var r := HandleFrame(c, s, f, env); Sound(r.dev) && Receives(r)
  {
    hide Inv, Sound, Stable, Receives, HandlePdu, Parse, BE;
    ParsedAn(c, f.payload, BE(6, f.dst), BE(6, f.src), s.cfg.ick);
    var r := Parse(c, f.payload, BE(6, f.dst), BE(6, f.src), s.cfg.ick);
    if r.Ok? && r.value.Some? {
      PduReceives(c, s, r.value.value, env);
    }
  }

  lemma EmptySound()
    ensures Sound(Macsec.Desired([], []))
  {
  }

  lemma StepReceives(c: Crypto, s: State, e: Event, env: Env)
    requires Inv(c, s) && Sound(s.dev) && Receives(s) && Orderly(c, s, e, env)
    ensures var r := Step(c, s, e, env); Sound(r.dev) && Receives(r)
  {
    hide Inv, Sound, RxAt, HandleFrame, EnsureSak, HasLivePeer, ResetRx, Parse, Unshared, Stable, BE;
    match e
    case Receive(f) => FrameReceives(c, s, f, env);
    case ExpirePeers(remove) => ExpireReceives(c, s, remove, env);
    case DropSak => EmptySound();
    case MakeSak => EnsureReceives(c, s, env, 0);
    case Send =>
  }

  predicate OrderlyRun(c: Crypto, s: State, events: seq<(Event, Env)>) {
    forall i | 0 <= i < |events| :: Orderly(c, Run(c, s, events[..i]), events[i].0, events[i].1)
  }

  /** Over every run in which every sender's mark is true of its SCI and no channel is shared between a forgotten and a
      staying peer, an installed mark means an active receive association under the latest key. */
  lemma {:induction false} ReceivesOverRuns(c: Crypto, cfg: Config, mi: Mi, events: seq<(Event, Env)>)
    requires OrderlyRun(c, Initial(cfg, mi), events)
    ensures var r := Run(c, Initial(cfg, mi), events); Sound(r.dev) && Receives(r)
  {
    hide Sound, Inv, Step, Orderly, Initial;
    var s := Initial(cfg, mi);
    InitialReceives(cfg, mi);
    if events != [] {
      var front, last := events[..|events| - 1], events[|events| - 1];
      forall i | 0 <= i < |front| ensures Orderly(c, Run(c, s, front[..i]), front[i].0, front[i].1) {
        assert front[..i] == events[..i];
      }
      ReceivesOverRuns(c, cfg, mi, front);
      InvariantOverRuns(c, cfg, mi, front);
      StepReceives(c, Run(c, s, front), last.0, last.1);
    }
  }

  lemma InitialReceives(cfg: Config, mi: Mi)
    ensures var s := Initial(cfg, mi); Sound(s.dev) && Receives(s)
  {
    hide Sound, BestOf;
    EmptySound();
  }

  // ------------------------------------------------------------ an untrue mark

  /** A member with a key and one peer, not live but marked as installed. */
  function Marked(): (s: State) {
    State(Config(1, [1], [], [], 16, false, true), 1, 2, [Peer(2, 1, ActorSci(2), 16, false, true, 2, false, 0, false, true)],
          Role(false, 0, None, false, false), KeyUse(Some(KeyId(3, 1)), 0, false, true), KeyUse(None, 0, false, false),
          Some(Zeros(16)), 1, None, Macsec.Desired([], []))
  }

  /** That peer, naming us. */
  function Joining(): (p: Mkpdu) {
    Mkpdu(Basic(3, 16, false, true, 2, ActorSci(2), 2, 2, 0x0080_c201, [1]), [PeerId(1, 1)], [], None, None)
  }

  lemma MarkedIsGood(c: Crypto)
    ensures Inv(c, Marked()) && Sound(Marked().dev) && Receives(Marked()) && ForUs(Marked(), Joining().basic)
    ensures !ClaimsOurs(Marked(), Joining()) && HeardUs(Marked(), Joining())
    ensures !Stable(Marked(), Joining().basic) && !Shared(Marked(), Joining().basic)
  {
    EmptySound();
    hide Sound;
    var s, p := Marked(), Joining();
    assert s.peers[0] in s.peers && PeerId(1, 1) in p.livePeers + p.potentialPeers;
  }

  /** The peer becomes live and gets no receive association. */
  lemma StaleMark(c: Crypto, env: Env)
    ensures !ReceivesAll(HandlePdu(c, Marked(), Joining(), env))
  {
    var s, p := Marked(), Joining();
    MarkedIsGood(c);
    assert !s.cfg.canBeKeyServer && p.distSak.None? && p.basic.mi == 2 && s.nextKn == 1;
    hide Inv, Sound, Receives, ForUs, ClaimsOurs, HeardUs, Stable, Shared, HandlePdu, ReceivesAll, FindPeer, WantsRekey, SomeLive,
         LiveAreCapable, Leads, Unbeaten, WasLive, Marked, Joining;
    ReadyToReceive(c, s, p, env);
    SenderExact(c, s, p, env);
    AdoptionExact(c, s, p, env);
    RoleAfterPdu(c, s, p, env);
    GenerationOnPdu(c, s, p, env);
    PduKeepsConfig(c, s, p, env);
  }

  lemma PduKeepsConfig(c: Crypto, s: State, p: Mkpdu, env: Env)
    requires Inv(c, s) && ForUs(s, p.basic) && !ClaimsOurs(s, p)
    ensures HandlePdu(c, s, p, env).cfg == s.cfg
  {
    hide HandlePdu, Hear, Record, Inv, ForUs, ClaimsOurs, FindPeer, Process;
    Stages(c, s, p, env);
    HeardKeys(c, s, p, env);
  }
}
