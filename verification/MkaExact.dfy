/** Exactly when an MKPDU is ignored, resets, makes its sender live, brings a key, starts transmission or makes a
    key server generate one, in terms of its fields and of the records. */
module MkaExact {
  import opened Wire
  import opened Mkpdu
  import opened Mka
  import opened MkaInvariant
  import opened MkaEffects
  import opened MkaRuns
  import opened MkaElection

  // ------------------------------------------------------------- acceptance

  /** From another member, of a version and algorithm we speak, and newer than what is recorded. */
  predicate ForUs(s: State, b: Basic) {
    && b.ckn == s.cfg.ckn && b.mi != s.mi && b.version <= 3 && b.algoAgility == 0x0080_c201
    && forall q | q in s.peers :: q.mi == b.mi ==> q.mn < b.mn
  }

  /** It lists our MI with an MN we have not sent yet. */
  predicate ClaimsOurs(s: State, p: Mkpdu) {
    exists id | id in p.livePeers + p.potentialPeers :: id.mi == s.mi && id.mn >= s.mn
  }

  lemma ForUsIs(s: State, b: Basic)
    requires GoodPeers(s.peers, s.mi)
    ensures Accepts(s, b) <==> ForUs(s, b)
  {
    if ForUs(s, b) && HasRecord(s, b.mi) {
      assert s.peers[FindPeer(s.peers, b.mi)] in s.peers;
    }
    if Accepts(s, b) {
      forall q | q in s.peers && q.mi == b.mi ensures q.mn < b.mn {
        FindUnique(s.peers, s.mi, q);
      }
    }
  }

  /** An MKPDU is ignored exactly when it is foreign or, not under our own MI, of a newer version, another
      algorithm or not newer than recorded; it makes us choose a new MI exactly when it is under our own MI or,
      not ignored, lists it with an MN we have not sent. */
  lemma PduFate(c: Crypto, s: State, p: Mkpdu, env: Env)
    requires Inv(c, s) && env.freshMi != s.mi
    ensures var r := HandlePdu(c, s, p, env); var clash := p.basic.ckn == s.cfg.ckn && p.basic.mi == s.mi;
      && (r == s <==> !clash && !ForUs(s, p.basic))
      && (r.mi == env.freshMi <==> clash || (ForUs(s, p.basic) && ClaimsOurs(s, p)))
      && (r.mi == env.freshMi ==> r.mn == 1 && r.peers == [] && r.latest.ki.None? && r.sak.None? && r.role.distSak.None?
                                  && r.role.isKeyServer == s.cfg.canBeKeyServer && r.role.needSend)
      && (r.mi != env.freshMi ==> r.mi == s.mi)
  {
    ForUsIs(s, p.basic);
    CollidesAfterRecord(s, p, env.now);
    if Accepts(s, p.basic) && !Collides(s, p) {
      AcceptedOnce(c, s, p, env);
      hide HandlePdu;
    }
  }

  // ------------------------------------------------------------ the sender

  /** The MKPDU shows that its sender heard one of our last two. */
  predicate HeardUs(s: State, p: Mkpdu) {
    exists id | id in p.livePeers + p.potentialPeers ::
      id.mi == s.mi && ((s.mn - id.mn) % 0x1_0000_0000 == 1 || (s.mn - id.mn) % 0x1_0000_0000 == 2)
  }

  lemma RecentIs(own: u32, mn: u32)
    ensures MnIsRecent(own, mn) <==> (own - mn) % 0x1_0000_0000 == 1 || (own - mn) % 0x1_0000_0000 == 2
  {
  }

  lemma HeardUsIs(s: State, p: Mkpdu)
    ensures KnowsUs(s, p) <==> HeardUs(s, p)
  {
    hide MnIsRecent;
    forall id | id in p.livePeers + p.potentialPeers
      ensures MnIsRecent(s.mn, id.mn) <==> (s.mn - id.mn) % 0x1_0000_0000 == 1 || (s.mn - id.mn) % 0x1_0000_0000 == 2
    {
      RecentIs(s.mn, id.mn);
    }
  }

  predicate WasLive(s: State, mi: Mi) { exists q | q in s.peers :: q.mi == mi && q.live }

  /** The record of `mi`. */
  function SenderOf(s: State, mi: Mi): (q: Peer)
    requires HasRecord(s, mi)
  {
    s.peers[FindPeer(s.peers, mi)]
  }

  lemma WasLiveIs(s: State, mi: Mi)
    requires GoodPeers(s.peers, s.mi)
    ensures WasLive(s, mi) <==> HasRecord(s, mi) && SenderOf(s, mi).live
  {
    if WasLive(s, mi) {
      var q :| q in s.peers && q.mi == mi && q.live;
      FindUnique(s.peers, s.mi, q);
    }
    if HasRecord(s, mi) {
      assert SenderOf(s, mi) in s.peers;
    }
  }

  /** What liveness and the election do, before keys are looked at. */
  lemma HearIs(s: State, i: nat, p: Mkpdu, now: nat)
    requires i < |s.peers|
    ensures var r := Hear(s, i, p, now); var q := s.peers[i];
      && i < |r.peers| && r.peers[i] == (if HeardUs(s, p) && !q.live then q.(live := true, lastSeen := now) else q)
      && (r.role.isKeyServer ==>
            r.role.needNewSak == (!s.role.isKeyServer || s.role.needNewSak || (HeardUs(s, p) && !q.live && s.latest.ki.Some?)))
  {
    HeardUsIs(s, p);
    hide KnowsUs, HeardUs, Learn, BestOf;
    var live := MarkLive(s, i, p, now);
    var t := LearnPeers(live, i, p, now);
    assert t.peers[i] == t.peers[..|live.peers|][i];
  }

  /** The sender's record after it was created or updated, in the state the MKPDU is then processed in. */
  lemma RecordIs(s: State, b: Basic, now: nat)
    ensures var known := Record(s, b, now); var i := FindPeer(s.peers, b.mi);
      && i < |known.peers| && known.peers[i].mi == b.mi && |s.peers| <= |known.peers|
      && (var q := known.peers[i];
          && q.mn == b.mn && q.sci == b.sci && q.priority == b.priority && q.keyServer == b.keyServer
          && q.macsecDesired == b.macsecDesired && q.capability == b.capability && q.lastSeen == now
          && q.live == (HasRecord(s, b.mi) && SenderOf(s, b.mi).live))
      && (forall j | 0 <= j < |s.peers| && j != i :: known.peers[j] == s.peers[j])
  {
  }

  lemma RecordFields(s: State, b: Basic, now: nat)
    ensures var known := Record(s, b, now);
      && SameKeyState(s, known) && known.role.isKeyServer == s.role.isKeyServer && known.role.serverSci == s.role.serverSci
      && known.role.needNewSak == s.role.needNewSak && known.role.distSak == s.role.distSak
  {
  }

  /** The stages of an accepted MKPDU: record, liveness and election, keys; the sender keeps its place. */
  lemma Stages(c: Crypto, s: State, p: Mkpdu, env: Env)
    requires Inv(c, s) && ForUs(s, p.basic) && !ClaimsOurs(s, p)
    ensures var i, known := FindPeer(s.peers, p.basic.mi), Record(s, p.basic, env.now);
      var heard, r := Hear(known, i, p, env.now), HandlePdu(c, s, p, env);
      && i < |known.peers| && i < |heard.peers| && Inv(c, known) && Inv(c, heard)
      && r == Process(c, known, i, p, env) && SameVote(heard, r) && FindPeer(r.peers, p.basic.mi) == i < |r.peers|
      && FindPeer(heard.peers, p.basic.mi) == i
  {
    var b, i := p.basic, FindPeer(s.peers, p.basic.mi);
    ForUsIs(s, b);
    TakenIs(c, s, p, env);
    var known := Record(s, b, env.now);
    RecordIs(s, b, env.now);
    RecordKeeps(c, s, b, env.now);
    hide HandlePdu, Process, Hear, Record, Inv, Accepts, ForUs, ClaimsOurs, SameVote, Onward;
    HearKeeps(c, known, i, p, env.now);
    ProcessVote(c, known, i, p, env);
    HearOnward(known, i, p, env.now);
    SameVoteSelf(Hear(known, i, p, env.now));
    SenderPlace(s, known, Hear(known, i, p, env.now), Process(c, known, i, p, env), i, b.mi);
    SenderPlace(s, known, Hear(known, i, p, env.now), Hear(known, i, p, env.now), i, b.mi);
  }

  lemma SameVoteSelf(s: State)
    ensures SameVote(s, s)
  {
  }

  /** The sender keeps its place. */
  lemma SenderPlace(s: State, known: State, heard: State, r: State, i: nat, mi: Mi)
    requires i == FindPeer(s.peers, mi) && i < |known.peers| && known.peers[i].mi == mi
    requires forall j | 0 <= j < i :: j < |known.peers| && known.peers[j].mi == s.peers[j].mi
    requires Onward(known, heard) && SameVote(heard, r)
    ensures FindPeer(r.peers, mi) == i && i < |r.peers| && i < |heard.peers|
  {
    OnwardVote(known, heard, r);
    hide SameVote;
    FindIn(r.peers, mi, i);
  }

  /** What an accepted MKPDU leaves of its sender. */
  lemma SenderExact(c: Crypto, s: State, p: Mkpdu, env: Env)
    requires Inv(c, s) && ForUs(s, p.basic) && !ClaimsOurs(s, p)
    ensures var r := HandlePdu(c, s, p, env); var b := p.basic;
      && HasRecord(r, b.mi)
      && (var q := SenderOf(r, b.mi);
          && q.mn == b.mn && q.sci == b.sci && q.priority == b.priority && q.keyServer == b.keyServer
          && q.macsecDesired == b.macsecDesired && q.capability == b.capability && q.lastSeen == env.now
          && (q.live <==> WasLive(s, b.mi) || HeardUs(s, p)))
  {
    WasLiveIs(s, p.basic.mi);
    hide HandlePdu, Process, Hear, Record, Inv, ForUs, ClaimsOurs, HeardUs, WasLive, GoodPeers, FindPeer;
    Stages(c, s, p, env);
    var i, known := FindPeer(s.peers, p.basic.mi), Record(s, p.basic, env.now);
    RecordIs(s, p.basic, env.now);
    HearIs(known, i, p, env.now);
    HeardUsSame(s, known, p, env.now);
    var r := HandlePdu(c, s, p, env);
    assert AdvertOf(r.peers[i]) == AdvertOf(Hear(known, i, p, env.now).peers[i]);
  }

  lemma HeardUsSame(s: State, known: State, p: Mkpdu, now: nat)
    requires known == Record(s, p.basic, now)
    ensures HeardUs(known, p) == HeardUs(s, p)
  {
  }

  // ------------------------------------------------------------------- keys

  /** `SAK Use` speaks of our latest key. */
  predicate SpeaksOf(s: State, p: Mkpdu) { p.sakUse.Some? && s.latest.ki == Some(p.sakUse.value.latestKi) }

  predicate LiveAreReady(peers: seq<Peer>) { forall j | 0 <= j < |peers| :: peers[j].live ==> peers[j].rxReady }

  /** The sender is the key server we elected. */
  predicate FromElected(role: Role, sender: Peer) {
    sender.keyServer && role.serverSci != 0 && sender.sci == role.serverSci
  }

  /** What a SAK Use does. */
  lemma UseIs(s: State, i: nat, p: Mkpdu)
    requires i < |s.peers|
    ensures var r := UseSak(s, i, p.sakUse); var serves := SpeaksOf(s, p) && s.role.isKeyServer && s.peers[i].live;
      && |r.peers| == |s.peers| && SameVote(s, r) && r.cfg == s.cfg && r.mi == s.mi && r.role.isKeyServer == s.role.isKeyServer
      && r.latest.ki == s.latest.ki && r.latest.an == s.latest.an && r.latest.rx == s.latest.rx && r.prior == s.prior
      && r.sak == s.sak && r.nextKn == s.nextKn && r.lastSakTime == s.lastSakTime
      && r.peers == s.peers[i := s.peers[i].(rxReady := if serves then p.sakUse.value.latestRx else s.peers[i].rxReady)]
      && r.latest.tx == (s.latest.tx || (serves && LiveAreReady(r.peers))
                         || (SpeaksOf(s, p) && !s.role.isKeyServer && FromElected(s.role, s.peers[i]) && p.sakUse.value.latestTx))
      && r.role.needNewSak == (s.role.needNewSak || (serves && p.sakUse.value.latestLlpn >= 0xC000_0000))
      && r.role.distSak == (if serves && LiveAreReady(r.peers) then None else s.role.distSak)
  {
    UseVote(s, i, p.sakUse);
    var r := UseSak(s, i, p.sakUse);
    assert LiveAreReady(r.peers) <==> AllReady(r.peers);
    hide SameVote, AllReady, LiveAreReady;
  }

  /** The MKPDU distributes a key we can use: to a member, from its live elected key server, protected as we are
      configured, with the default or GCM-AES-128 suite, unwrapping to 16 octets. */
  predicate Brings(c: Crypto, cfg: Config, role: Role, sender: Peer, p: Mkpdu) {
    && p.distSak.Some? && !role.isKeyServer && sender.live && FromElected(role, sender)
    && (var d := p.distSak.value;
        && d.wrappedSak != [] && d.confidentialityOffset == (if cfg.encrypt then 1 else 0)
        && (d.cipherSuite == None || d.cipherSuite == Some(0x0080_0200_0100_0001))
        && c.unwrap(cfg.kek, d.wrappedSak).Some? && |c.unwrap(cfg.kek, d.wrappedSak).value| == 16)
  }

  predicate Unwraps(c: Crypto, cfg: Config, d: DistSak) {
    c.unwrap(cfg.kek, d.wrappedSak).Some? && |c.unwrap(cfg.kek, d.wrappedSak).value| == 16
  }

  lemma BringsIs(c: Crypto, s: State, i: nat, p: Mkpdu)
    requires i < |s.peers|
    ensures Distributes(s, i, p.distSak) ==> p.distSak.Some?
    ensures Brings(c, s.cfg, s.role, s.peers[i], p) <==>
      Distributes(s, i, p.distSak) && DistSakSupported(s.cfg.encrypt, p.distSak.value) && Unwraps(c, s.cfg, p.distSak.value)
  {
  }

  lemma AdoptIs(s: State, i: nat, d: DistSak, sak: bytes)
    requires i < |s.peers|
    ensures var r := Adopt(s, i, d, sak);
      && r.latest == KeyUse(Some(KeyId(s.peers[i].mi, d.kn)), d.an, false, true) && r.prior == s.latest
      && r.sak == Some(sak) && r.nextKn == s.nextKn
  {
    hide InstallRxAll, Scis, MarkInstalled;
  }

  lemma TakeIs(c: Crypto, s: State, i: nat, p: Mkpdu)
    requires i < |s.peers|
    ensures var t := TakeSak(c, s, i, p.distSak);
      if Brings(c, s.cfg, s.role, s.peers[i], p) && s.latest.ki != Some(KeyId(s.peers[i].mi, p.distSak.value.kn)) then
        && t.Some? && t.value.sak == c.unwrap(s.cfg.kek, p.distSak.value.wrappedSak) && t.value.prior == s.latest
        && t.value.latest == KeyUse(Some(KeyId(s.peers[i].mi, p.distSak.value.kn)), p.distSak.value.an, false, true)
        && t.value.nextKn == s.nextKn && SameVote(s, t.value)
      else t.None? || t.value == s
  {
    hide SameVote, Adopt, Brings, Distributes, DistSakSupported;
    TakeVote(c, s, i, p.distSak);
    BringsIs(c, s, i, p);
    if Brings(c, s.cfg, s.role, s.peers[i], p) {
      AdoptIs(s, i, p.distSak.value, c.unwrap(s.cfg.kek, p.distSak.value.wrappedSak).value);
    }
  }

  lemma ServerTakesNone(c: Crypto, s: State, i: nat, p: Mkpdu)
    requires i < |s.peers| && s.role.isKeyServer
    ensures TakeSak(c, s, i, p.distSak) == Some(s)
  {
  }

  lemma PendingIs(s: State)
    ensures var r := InstallPending(s);
      && r.latest == s.latest && r.prior == s.prior && r.sak == s.sak && r.nextKn == s.nextKn && |r.peers| == |s.peers|
      && r.role == s.role && r.lastSakTime == s.lastSakTime && r.cfg == s.cfg && r.mi == s.mi
      && forall j | 0 <= j < |s.peers| :: r.peers[j].rxReady == s.peers[j].rxReady && AdvertOf(r.peers[j]) == AdvertOf(s.peers[j])
  {
    hide InstallRxAll, Scis;
  }

  /** A key must be made: key server, somebody live, everybody live capable, and no own key in use or a rekey wanted
      and MKA Life Time over. */
  predicate MustMake(s: State, now: nat) {
    && s.role.isKeyServer && (exists q | q in s.peers :: q.live) && (forall q | q in s.peers :: q.live ==> q.capability != 0)
    && (s.latest.ki.Some? && s.latest.ki.value.mi == s.mi ==>
          s.role.needNewSak && (s.lastSakTime.None? || now >= s.lastSakTime.value + 6_000_000_000))
  }

  lemma EnsureIs(c: Crypto, s: State, env: Env)
    ensures var r := EnsureSak(c, s, env);
      && (MustMake(s, env.now) <==> r.nextKn != s.nextKn)
      && (MustMake(s, env.now) ==> Generated(c, s, r, env)) && (!MustMake(s, env.now) ==> r == s)
  {
    CounterMoves(s.nextKn);
    assert MustMake(s, env.now) <==> MustGenerate(s, env.now);
    hide MustMake, NextCounter;
    if MustGenerate(s, env.now) {
      GenerateEffect(c, s, env);
    }
    hide MustGenerate, Generate;
  }

  /** The generation step generates exactly when a key must be made. */
  lemma GenerationExact(c: Crypto, s: State, env: Env)
    ensures Step(c, s, MakeSak, env).nextKn != s.nextKn <==> MustMake(s, env.now)
    ensures MustMake(s, env.now) ==>
      var r := Step(c, s, MakeSak, env);
      && r.latest == KeyUse(Some(KeyId(s.mi, s.nextKn)), (s.latest.an + 1) % 4, false, true) && r.prior == s.latest
      && r.sak == Some(env.freshSak) && r.lastSakTime == Some(env.now) && !r.role.needNewSak && r.role.needSend
      && r.role.distSak == Some(DistSak((s.latest.an + 1) % 4, if s.cfg.encrypt then 1 else 0, s.nextKn, None,
                                         c.wrap(s.cfg.kek, env.freshSak)))
    ensures !MustMake(s, env.now) ==> Step(c, s, MakeSak, env) == s
  {
    EnsureIs(c, s, env);
    assert MustMake(s, env.now) <==> MustGenerate(s, env.now);
    hide MustMake, InstallRxAll, Scis, MustGenerate;
  }

  // ------------------------------------------------- what an accepted MKPDU does

  /** The stages after the election, with what each leaves. */
  lemma KeyStages(c: Crypto, s: State, p: Mkpdu, env: Env)
    requires Inv(c, s) && ForUs(s, p.basic) && !ClaimsOurs(s, p)
    ensures var i, known := FindPeer(s.peers, p.basic.mi), Record(s, p.basic, env.now);
      var heard, r := Hear(known, i, p, env.now), HandlePdu(c, s, p, env);
      && i < |heard.peers| && (var used := UseSak(heard, i, p.sakUse);
         r == match TakeSak(c, used, i, p.distSak)
              case None => used
              case Some(t) => InstallPending(EnsureSak(c, t, env)))
  {
    hide HandlePdu, Hear, Record, Inv, ForUs, ClaimsOurs, UseSak, TakeSak, EnsureSak, InstallPending, SameVote, FindPeer;
    Stages(c, s, p, env);
  }

  /** The key state on which a SAK Use works is the one before the MKPDU. */
  lemma HeardKeys(c: Crypto, s: State, p: Mkpdu, env: Env)
    requires Inv(c, s) && ForUs(s, p.basic) && !ClaimsOurs(s, p)
    ensures var i, known := FindPeer(s.peers, p.basic.mi), Record(s, p.basic, env.now);
      && i < |known.peers|
      && (var heard := Hear(known, i, p, env.now);
          && heard.latest == s.latest && heard.prior == s.prior && heard.sak == s.sak && heard.nextKn == s.nextKn
          && heard.lastSakTime == s.lastSakTime && heard.cfg == s.cfg && heard.mi == s.mi)
  {
    hide Hear, Record, Inv, ForUs, ClaimsOurs, FindPeer;
    var i, known := FindPeer(s.peers, p.basic.mi), Record(s, p.basic, env.now);
    RecordIs(s, p.basic, env.now);
    RecordFields(s, p.basic, env.now);
    HearFrame(known, i, p, env.now);
  }

  /** An accepted MKPDU that distributes a usable key makes it our latest, to receive and not yet to transmit with,
      unless it is our latest already; a key of another participant is never taken otherwise. */
  lemma AdoptionExact(c: Crypto, s: State, p: Mkpdu, env: Env)
    requires Inv(c, s) && ForUs(s, p.basic) && !ClaimsOurs(s, p)
    ensures var r := HandlePdu(c, s, p, env);
      && HasRecord(r, p.basic.mi)
      && (if Brings(c, s.cfg, r.role, SenderOf(r, p.basic.mi), p) && s.latest.ki != Some(KeyId(p.basic.mi, p.distSak.value.kn)) then
            && r.latest == KeyUse(Some(KeyId(p.basic.mi, p.distSak.value.kn)), p.distSak.value.an, false, true)
            && r.sak == c.unwrap(s.cfg.kek, p.distSak.value.wrappedSak)
            && r.prior.ki == s.latest.ki && r.prior.an == s.latest.an && r.prior.rx == s.latest.rx && r.nextKn == s.nextKn
          else
            || r.nextKn != s.nextKn
            || (r.latest.ki == s.latest.ki && r.latest.an == s.latest.an && r.sak == s.sak && r.prior == s.prior))
  {
    hide HandlePdu, Hear, Record, Inv, ForUs, ClaimsOurs, UseSak, TakeSak, EnsureSak, InstallPending, SameVote, Brings, FindPeer;
    Stages(c, s, p, env);
    KeyStages(c, s, p, env);
    HeardKeys(c, s, p, env);
    var i, known := FindPeer(s.peers, p.basic.mi), Record(s, p.basic, env.now);
    var heard, r := Hear(known, i, p, env.now), HandlePdu(c, s, p, env);
    var used := UseSak(heard, i, p.sakUse);
    UseIs(heard, i, p);
    TakeIs(c, used, i, p);
    BringsSame(c, s.cfg, heard, used, i, p);
    BringsSame(c, s.cfg, heard, r, i, p);
    VotePlace(heard, i, p.basic.mi);
    var t := TakeSak(c, used, i, p.distSak);
    if t.Some? {
      EnsureIs(c, t.value, env);
      PendingIs(EnsureSak(c, t.value, env));
      NoMemberMakes(t.value, env.now);
      if Brings(c, s.cfg, used.role, used.peers[i], p) {
        MemberOnly(c, s.cfg, used.role, used.peers[i], p);
        VoteRole(used, t.value);
      }
    }
  }

  lemma VotePlace(s: State, i: nat, mi: Mi)
    requires i == FindPeer(s.peers, mi) && i < |s.peers|
    ensures s.peers[i].mi == mi
  {
  }

  lemma VoteRole(s: State, r: State)
    requires SameVote(s, r)
    ensures r.role.isKeyServer == s.role.isKeyServer
  {
  }

  lemma MemberOnly(c: Crypto, cfg: Config, role: Role, sender: Peer, p: Mkpdu)
    requires Brings(c, cfg, role, sender, p)
    ensures !role.isKeyServer && p.distSak.Some?
  {
  }

  lemma NoMemberMakes(s: State, now: nat)
    ensures !s.role.isKeyServer ==> !MustMake(s, now)
  {
  }

  /** Whether an MKPDU brings a key depends only on role and record, which the keys do not touch. */
  lemma BringsSame(c: Crypto, cfg: Config, s: State, r: State, i: nat, p: Mkpdu)
    requires SameVote(s, r) && i < |s.peers|
    ensures i < |r.peers| && r.peers[i].mi == s.peers[i].mi
    ensures Brings(c, cfg, r.role, r.peers[i], p) == Brings(c, cfg, s.role, s.peers[i], p)
  {
    assert AdvertOf(r.peers[i]) == AdvertOf(s.peers[i]);
  }

  predicate SomeLive(peers: seq<Peer>) { exists q | q in peers :: q.live }

  predicate LiveAreCapable(peers: seq<Peer>) { forall q | q in peers :: q.live ==> q.capability != 0 }

  lemma LiveSame(s: State, r: State)
    requires SameVote(s, r)
    ensures SomeLive(s.peers) == SomeLive(r.peers) && LiveAreCapable(s.peers) == LiveAreCapable(r.peers)
  {
    forall j | 0 <= j < |s.peers|
      ensures s.peers[j].live == r.peers[j].live && s.peers[j].capability == r.peers[j].capability
    {
      assert AdvertOf(r.peers[j]) == AdvertOf(s.peers[j]);
    }
    hide AdvertOf;
    LiveAlike(s.peers, r.peers);
    LiveAlike(r.peers, s.peers);
  }

  lemma LiveAlike(a: seq<Peer>, b: seq<Peer>)
    requires |a| == |b| && forall j | 0 <= j < |a| :: a[j].live == b[j].live && a[j].capability == b[j].capability
    ensures SomeLive(a) ==> SomeLive(b)
    ensures LiveAreCapable(a) ==> LiveAreCapable(b)
  {
    if SomeLive(a) {
      var j :| 0 <= j < |a| && a[j].live;
      assert b[j] in b;
    }
    if LiveAreCapable(a) {
      forall q | q in b && q.live ensures q.capability != 0 {
        var j :| 0 <= j < |b| && b[j] == q;
        assert a[j] in a;
      }
    }
  }

  lemma MustMakeIs(s: State, now: nat)
    ensures MustMake(s, now) <==>
      && s.role.isKeyServer && SomeLive(s.peers) && LiveAreCapable(s.peers)
      && (OwnsKey(s) ==> s.role.needNewSak && (s.lastSakTime.None? || now >= s.lastSakTime.value + 6_000_000_000))
  {
  }

  /** A key server that holds a key of its own wants another: it was not key server before, wanted one already, the
      sender joined, or the sender's packet numbers run out. */
  predicate WantsRekey(s: State, r: State, p: Mkpdu)
    requires HasRecord(r, p.basic.mi)
  {
    || !s.role.isKeyServer || s.role.needNewSak
    || (HeardUs(s, p) && !WasLive(s, p.basic.mi) && s.latest.ki.Some?)
    || (SpeaksOf(s, p) && SenderOf(r, p.basic.mi).live && p.sakUse.value.latestLlpn >= 0xC000_0000)
  }

  /** At the end of an accepted MKPDU a key is generated exactly when we are then key server, somebody is live and
      everybody live capable, and our latest key is not our own or a rekey is wanted and 6 s are over. */
  lemma GenerationOnPdu(c: Crypto, s: State, p: Mkpdu, env: Env)
    requires Inv(c, s) && ForUs(s, p.basic) && !ClaimsOurs(s, p)
    ensures var r := HandlePdu(c, s, p, env);
      && HasRecord(r, p.basic.mi)
      && (r.nextKn != s.nextKn <==>
            && r.role.isKeyServer && SomeLive(r.peers) && LiveAreCapable(r.peers)
            && (OwnsKey(s) ==>
                  WantsRekey(s, r, p) && (s.lastSakTime.None? || env.now >= s.lastSakTime.value + 6_000_000_000)))
      && (r.role.isKeyServer && r.nextKn == s.nextKn ==> r.role.needNewSak == WantsRekey(s, r, p))
  {
    hide HandlePdu, Hear, Record, Inv, ForUs, ClaimsOurs, UseSak, TakeSak, EnsureSak, InstallPending, SameVote, FindPeer,
         MustMake, SomeLive, LiveAreCapable, LiveAreReady, Generated, WantsRekey;
    Stages(c, s, p, env);
    KeyStages(c, s, p, env);
    HeardKeys(c, s, p, env);
    RekeyIs(c, s, p, env);
    var i, known := FindPeer(s.peers, p.basic.mi), Record(s, p.basic, env.now);
    var heard, r := Hear(known, i, p, env.now), HandlePdu(c, s, p, env);
    var used := UseSak(heard, i, p.sakUse);
    UseIs(heard, i, p);
    VoteFields(heard, r, i);
    LiveSame(heard, r);
    LiveSame(heard, used);
    MustMakeIs(used, env.now);
    if used.role.isKeyServer {
      ServerTakesNone(c, used, i, p);
      EnsureIs(c, used, env);
      PendingIs(EnsureSak(c, used, env));
    } else {
      MemberMakesNone(c, used, i, p, env);
    }
  }

  /** What a key server wants after liveness, election and SAK Use. */
  lemma RekeyIs(c: Crypto, s: State, p: Mkpdu, env: Env)
    requires Inv(c, s) && ForUs(s, p.basic) && !ClaimsOurs(s, p)
    ensures var i, known := FindPeer(s.peers, p.basic.mi), Record(s, p.basic, env.now);
      var heard, r := Hear(known, i, p, env.now), HandlePdu(c, s, p, env);
      && i < |heard.peers| && HasRecord(r, p.basic.mi)
      && (var used := UseSak(heard, i, p.sakUse); used.role.isKeyServer ==> used.role.needNewSak == WantsRekey(s, r, p))
  {
    WasLiveIs(s, p.basic.mi);
    hide HandlePdu, Hear, Record, Inv, ForUs, ClaimsOurs, UseSak, SameVote, FindPeer, HeardUs, WasLive, LiveAreReady, GoodPeers,
         Process;
    Stages(c, s, p, env);
    HeardKeys(c, s, p, env);
    RecordIs(s, p.basic, env.now);
    RecordFields(s, p.basic, env.now);
    HeardUsSame(s, Record(s, p.basic, env.now), p, env.now);
    var i, known := FindPeer(s.peers, p.basic.mi), Record(s, p.basic, env.now);
    HearIs(known, i, p, env.now);
    UseIs(Hear(known, i, p, env.now), i, p);
    VoteFields(Hear(known, i, p, env.now), HandlePdu(c, s, p, env), i);
  }

  lemma VoteFields(s: State, r: State, i: nat)
    requires SameVote(s, r) && i < |s.peers|
    ensures i < |r.peers| && r.peers[i].live == s.peers[i].live && r.peers[i].sci == s.peers[i].sci
    ensures r.peers[i].keyServer == s.peers[i].keyServer
    ensures r.role.isKeyServer == s.role.isKeyServer && r.role.serverSci == s.role.serverSci
  {
    assert AdvertOf(r.peers[i]) == AdvertOf(s.peers[i]);
  }

  lemma MemberMakesNone(c: Crypto, s: State, i: nat, p: Mkpdu, env: Env)
    requires i < |s.peers| && !s.role.isKeyServer
    ensures var t := TakeSak(c, s, i, p.distSak);
      t.Some? ==> InstallPending(EnsureSak(c, t.value, env)).nextKn == s.nextKn
  {
    hide InstallPending, EnsureSak, TakeSak, SameVote, Brings;
    TakeIs(c, s, i, p);
    var t := TakeSak(c, s, i, p.distSak);
    if t.Some? {
      if t.value != s {
        VoteRole(s, t.value);
      }
      NoMemberMakes(t.value, env.now);
      EnsureIs(c, t.value, env);
      PendingIs(EnsureSak(c, t.value, env));
    }
  }

  /** While its latest key stays, an accepted MKPDU turns transmission on exactly when it speaks of that key and: at a
      key server, its sender is live and every live peer then receives with it; at a member, the elected key server
      says that it transmits with it. A live sender's word on whether it receives is what is recorded, and a key
      server stops distributing once all receive. */
  lemma ActivationExact(c: Crypto, s: State, p: Mkpdu, env: Env)
    requires Inv(c, s) && ForUs(s, p.basic) && !ClaimsOurs(s, p)
    requires var r := HandlePdu(c, s, p, env); r.latest.ki == s.latest.ki && r.nextKn == s.nextKn
    ensures var r := HandlePdu(c, s, p, env);
      && HasRecord(r, p.basic.mi)
      && (var sender := SenderOf(r, p.basic.mi); var serves := SpeaksOf(s, p) && r.role.isKeyServer && sender.live;
          && (r.latest.tx <==>
                || s.latest.tx || (serves && LiveAreReady(r.peers))
                || (SpeaksOf(s, p) && !r.role.isKeyServer && FromElected(r.role, sender) && p.sakUse.value.latestTx))
          && (forall j | 0 <= j < |s.peers| && s.peers[j].mi != p.basic.mi ::
                j < |r.peers| && r.peers[j].mi == s.peers[j].mi && r.peers[j].rxReady == s.peers[j].rxReady)
          && (serves ==> sender.rxReady == p.sakUse.value.latestRx && (LiveAreReady(r.peers) ==> r.role.distSak.None?))
          && (r.role.isKeyServer && !(serves && LiveAreReady(r.peers)) && s.role.isKeyServer ==> r.role.distSak == s.role.distSak))
  {
    hide HandlePdu, Hear, Record, Inv, ForUs, ClaimsOurs, UseSak, TakeSak, EnsureSak, InstallPending, SameVote, FindPeer,
         MustMake, LiveAreReady, Generated, Brings;
    Stages(c, s, p, env);
    KeyStages(c, s, p, env);
    HeardKeys(c, s, p, env);
    var i, known := FindPeer(s.peers, p.basic.mi), Record(s, p.basic, env.now);
    var heard, r := Hear(known, i, p, env.now), HandlePdu(c, s, p, env);
    var used := UseSak(heard, i, p.sakUse);
    UseIs(heard, i, p);
    VoteFields(heard, r, i);
    HearKeepsDist(s, p, env.now);
    HearKeepsReady(s, p, env.now);
    VoteMis(heard, r);
    TakeIs(c, used, i, p);
    var t := TakeSak(c, used, i, p.distSak);
    if t.Some? {
      PendingIs(EnsureSak(c, t.value, env));
      EnsureIs(c, t.value, env);
      assert t.value == used && EnsureSak(c, t.value, env) == used;
      ReadySame(used.peers, r.peers);
    }
  }

  /** Readiness is judged alike where the flags are alike. */
  lemma ReadySame(a: seq<Peer>, b: seq<Peer>)
    requires |a| == |b| && forall j | 0 <= j < |a| :: b[j].rxReady == a[j].rxReady && AdvertOf(b[j]) == AdvertOf(a[j])
    ensures LiveAreReady(a) == LiveAreReady(b)
  {
    forall j | 0 <= j < |a| ensures a[j].live == b[j].live {
      assert AdvertOf(b[j]) == AdvertOf(a[j]);
    }
  }

  /** A key server that stays one goes on distributing. */
  lemma HearKeepsDist(s: State, p: Mkpdu, now: nat)
    ensures var i, known := FindPeer(s.peers, p.basic.mi), Record(s, p.basic, now);
      && i < |known.peers|
      && (var heard := Hear(known, i, p, now);
          s.role.isKeyServer && heard.role.isKeyServer ==> heard.role.distSak == s.role.distSak)
  {
    hide KnowsUs, Learn, BestOf, FindPeer;
  }

  lemma VoteMis(s: State, r: State)
    requires SameVote(s, r)
    ensures |r.peers| == |s.peers| && forall j | 0 <= j < |s.peers| :: r.peers[j].mi == s.peers[j].mi
  {
    forall j | 0 <= j < |s.peers| ensures r.peers[j].mi == s.peers[j].mi {
      assert AdvertOf(r.peers[j]) == AdvertOf(s.peers[j]);
    }
  }

  /** Liveness and the election leave the other records where they are, with their flags. */
  lemma HearKeepsReady(s: State, p: Mkpdu, now: nat)
    ensures var i, known := FindPeer(s.peers, p.basic.mi), Record(s, p.basic, now);
      && i < |known.peers|
      && (var heard := Hear(known, i, p, now);
          && |s.peers| <= |heard.peers|
          && forall j | 0 <= j < |s.peers| && s.peers[j].mi != p.basic.mi :: heard.peers[j] == s.peers[j])
  {
    var i, known := FindPeer(s.peers, p.basic.mi), Record(s, p.basic, now);
    RecordIs(s, p.basic, now);
    hide Record, KnowsUs, Learn, BestOf, FindPeer;
    var live := MarkLive(known, i, p, now);
    var r := LearnPeers(live, i, p, now).peers;
    assert forall j | 0 <= j < |live.peers| :: r[j] == r[..|live.peers|][j];
  }
}
