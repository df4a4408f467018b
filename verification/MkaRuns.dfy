/** Runs of one participant: replayed MKPDUs, message numbers, and the keys it generates. */
module MkaRuns {
  import opened Wire
  import opened Mkpdu
  import opened Mka
  import opened MkaInvariant
  import opened MkaEffects

  // ------------------------------------------------------------------ replay

  /** What a record says about its peer, leaving out its receive state. */
  datatype Advert = Advert(
    mi: Mi, mn: u32, sci: u64, priority: u8, keyServer: bool, desired: bool, capability: u8, live: bool, lastSeen: nat)

  function AdvertOf(p: Peer): (a: Advert) {
    Advert(p.mi, p.mn, p.sci, p.priority, p.keyServer, p.macsecDesired, p.capability, p.live, p.lastSeen)
  }

  /** Same identity, same records up to receive state, same outcome of the election. */
  predicate SameVote(s: State, r: State) {
    && r.cfg == s.cfg && r.mi == s.mi && r.mn == s.mn && |r.peers| == |s.peers|
    && r.role.isKeyServer == s.role.isKeyServer && r.role.serverSci == s.role.serverSci
    && forall j | 0 <= j < |s.peers| :: AdvertOf(r.peers[j]) == AdvertOf(s.peers[j])
  }

  lemma SameVoteTrans(s: State, t: State, r: State)
    requires SameVote(s, t) && SameVote(t, r)
    ensures SameVote(s, r)
  {
    hide AdvertOf;
    forall j | 0 <= j < |s.peers| ensures AdvertOf(r.peers[j]) == AdvertOf(s.peers[j]) {
      assert AdvertOf(r.peers[j]) == AdvertOf(t.peers[j]) == AdvertOf(s.peers[j]);
    }
  }

  lemma UseVote(s: State, i: nat, use: Option<SakUse>)
    requires i < |s.peers|
    ensures SameVote(s, UseSak(s, i, use))
  {
    hide AllReady, IsElected;
  }

  lemma TakeVote(c: Crypto, s: State, i: nat, dist: Option<DistSak>)
    requires i < |s.peers|
    ensures var t := TakeSak(c, s, i, dist); t.Some? ==> SameVote(s, t.value)
  {
    hide InstallRxAll, Scis, DistSakSupported, IsElected;
  }

  lemma EnsureVote(c: Crypto, s: State, env: Env)
    ensures SameVote(s, EnsureSak(c, s, env))
  {
    hide InstallRxAll, Scis, MustGenerate;
  }

  lemma PendingVote(s: State)
    ensures SameVote(s, InstallPending(s))
  {
    hide InstallRxAll, Scis;
  }

  /** After liveness and the election, a frame no longer touches either. */
  lemma ProcessVote(c: Crypto, s: State, i: nat, p: Mkpdu, env: Env)
    requires i < |s.peers|
    ensures SameVote(Hear(s, i, p, env.now), Process(c, s, i, p, env))
  {
    hide Hear, UseSak, TakeSak, EnsureSak, InstallPending, SameVote;
    var heard := Hear(s, i, p, env.now);
    UseVote(heard, i, p.sakUse);
    var used := UseSak(heard, i, p.sakUse);
    var taken := TakeSak(c, used, i, p.distSak);
    TakeVote(c, used, i, p.distSak);
    if taken.Some? {
      var e := EnsureSak(c, taken.value, env);
      EnsureVote(c, taken.value, env);
      PendingVote(e);
      SameVoteTrans(used, taken.value, e);
      SameVoteTrans(used, e, InstallPending(e));
      SameVoteTrans(heard, used, InstallPending(e));
    }
  }

  /** Same identity; records keep their place, MI and MN, and new ones may follow. */
  predicate Onward(s: State, r: State) {
    && r.cfg == s.cfg && r.mi == s.mi && r.mn == s.mn && |s.peers| <= |r.peers|
    && forall j | 0 <= j < |s.peers| :: r.peers[j].mi == s.peers[j].mi && r.peers[j].mn == s.peers[j].mn
  }

  lemma OnwardVote(s: State, t: State, r: State)
    requires Onward(s, t) && SameVote(t, r)
    ensures Onward(s, r)
  {
    forall j | 0 <= j < |s.peers| ensures r.peers[j].mi == s.peers[j].mi && r.peers[j].mn == s.peers[j].mn {
      assert AdvertOf(r.peers[j]) == AdvertOf(t.peers[j]);
    }
  }

  lemma HearOnward(s: State, i: nat, p: Mkpdu, now: nat)
    requires i < |s.peers|
    ensures Onward(s, Hear(s, i, p, now))
  {
    hide KnowsUs, Learn;
    HearFrame(s, i, p, now);
    var live := MarkLive(s, i, p, now);
    var r := LearnPeers(live, i, p, now).peers;
    assert forall j | 0 <= j < |live.peers| :: r[j] == r[..|live.peers|][j];
  }

  lemma ProcessOnward(c: Crypto, s: State, i: nat, p: Mkpdu, env: Env)
    requires i < |s.peers|
    ensures Onward(s, Process(c, s, i, p, env))
  {
    hide Process, Hear, Onward, SameVote;
    HearOnward(s, i, p, env.now);
    ProcessVote(c, s, i, p, env);
    OnwardVote(s, Hear(s, i, p, env.now), Process(c, s, i, p, env));
  }

  /** The MKPDU makes the participant choose a new MI. */
  predicate Resets(s: State, p: Mkpdu) {
    (p.basic.ckn == s.cfg.ckn && p.basic.mi == s.mi) || (Accepts(s, p.basic) && Collides(s, p))
  }

  lemma CollidesAfterRecord(s: State, p: Mkpdu, now: nat)
    ensures Collides(Record(s, p.basic, now), p) == Collides(s, p)
  {
  }

  lemma {:induction false} FindIn(peers: seq<Peer>, mi: Mi, i: nat)
    requires i < |peers| && peers[i].mi == mi && forall j | 0 <= j < i :: peers[j].mi != mi
    ensures FindPeer(peers, mi) == i
  {
  }

  /** After an accepted MKPDU its sender's record carries its MN, so it cannot be accepted again. */
  lemma AcceptedOnce(c: Crypto, s: State, p: Mkpdu, env: Env)
    requires Accepts(s, p.basic) && !Collides(s, p)
    ensures var r := HandlePdu(c, s, p, env); var i := FindPeer(r.peers, p.basic.mi);
      r.cfg == s.cfg && r.mi == s.mi && i < |r.peers| && r.peers[i].mn == p.basic.mn && !Accepts(r, p.basic)
  {
    var i := FindPeer(s.peers, p.basic.mi);
    var known := Record(s, p.basic, env.now);
    CollidesAfterRecord(s, p, env.now);
    RecordFrame(s, p.basic, env.now);
    RecordMi(s, p.basic, env.now);
    assert known.peers[i].mn == p.basic.mn && forall j | 0 <= j < i :: known.peers[j].mi != p.basic.mi;
    ProcessOnward(c, known, i, p, env);
    var r := Process(c, known, i, p, env);
    hide Process, Record, Collides, FindPeer;
    assert HandlePdu(c, s, p, env) == r;
    FindIn(r.peers, p.basic.mi, i);
  }

  /** Replaying an MKPDU straight after the first leaves the participant unchanged, at any later time
      and whatever is drawn, except exactly when the first forced a new MI and the MKPDU is one this
      version would process. */
  lemma ReplayIsNoOp(c: Crypto, s: State, p: Mkpdu, env: Env, env': Env)
    requires env.freshMi != p.basic.mi && forall id | id in Listed(p) :: id.mi != env.freshMi
    ensures var r := HandlePdu(c, s, p, env);
      HandlePdu(c, r, p, env') != r
      <==> Resets(s, p) && p.basic.version <= MKA_VERSION && p.basic.algoAgility == ALGO_AGILITY
  {
    var r := HandlePdu(c, s, p, env);
    CollidesAfterRecord(s, p, env.now);
    if Resets(s, p) {
      CollidesAfterRecord(r, p, env'.now);
      assert r.peers == [] && r.mi == env.freshMi && r.cfg == s.cfg;
      if p.basic.version <= MKA_VERSION && p.basic.algoAgility == ALGO_AGILITY {
        FreshIsNotListed(r, p);
        AcceptedOnce(c, r, p, env');
      }
    } else if Accepts(s, p.basic) {
      AcceptedOnce(c, s, p, env);
    }
  }

  lemma FreshIsNotListed(r: State, p: Mkpdu)
    requires forall id | id in Listed(p) :: id.mi != r.mi
    ensures !Collides(r, p)
  {
  }

  /** A new session that hears its own MI from somebody else: the first MKPDU makes it choose another MI, the same
      MKPDU again then creates a peer record. */
  lemma ReplayAfterReset(c: Crypto)
    ensures var s := Initial(Config(1, [1], [], [], 16, true, true), 1);
      var p := Mkpdu(Basic(MKA_VERSION, 16, false, true, 2, ActorSci(2), 1, 5, ALGO_AGILITY, [1]), [], [], None, None);
      var env := Env(0, 7, Zeros(16));
      var once := HandlePdu(c, s, p, env);
      Resets(s, p) && once.mi == 7 && once.peers == [] && HandlePdu(c, once, p, env) != once
  {
    var s := Initial(Config(1, [1], [], [], 16, true, true), 1);
    var p := Mkpdu(Basic(MKA_VERSION, 16, false, true, 2, ActorSci(2), 1, 5, ALGO_AGILITY, [1]), [], [], None, None);
    hide Process, BestOf;
    ReplayIsNoOp(c, s, p, Env(0, 7, Zeros(16)), Env(0, 7, Zeros(16)));
  }

  // --------------------------------------------------------- message numbers

  /** The MKPDU that `handle_frame` finds in a frame, if any. */
  function Heard(c: Crypto, s: State, f: Frame): (r: Option<Mkpdu>) {
    if |f.payload| < 4 || f.payload[1] != EAPOL_TYPE_MKA then None
    else if f.dst != PAE_GROUP_ADDR || f.src / 0x100_0000_0000 % 2 == 1 || f.src == s.cfg.mac then None
    else
      match Parse(c, f.payload, BE(6, f.dst), BE(6, f.src), s.cfg.ick)
      case Ok(p) => p
      case Err => None
  }

  lemma HandleFrameIs(c: Crypto, s: State, f: Frame, env: Env)
    ensures HandleFrame(c, s, f, env)
         == match Heard(c, s, f) case None => s case Some(p) => HandlePdu(c, s, p, env)
  {
    hide Parse, HandlePdu, BE;
  }

  predicate HasRecord(s: State, mi: Mi) { FindPeer(s.peers, mi) < |s.peers| }

  function MnOf(s: State, mi: Mi): (mn: u32)
    requires HasRecord(s, mi)
  {
    s.peers[FindPeer(s.peers, mi)].mn
  }

  /** The event is a frame of `mi` that updates its record. */
  predicate TakesFrame(c: Crypto, s: State, e: Event, mi: Mi) {
    && e.Receive? && Heard(c, s, e.frame).Some?
    && (var p := Heard(c, s, e.frame).value; p.basic.mi == mi && Accepts(s, p.basic) && !Collides(s, p))
  }

  lemma RecordsKeepMn(s: State, r: State, mi: Mi)
    requires Onward(s, r) && HasRecord(s, mi)
    ensures HasRecord(r, mi) && MnOf(r, mi) == MnOf(s, mi)
  {
    FindIn(r.peers, mi, FindPeer(s.peers, mi));
  }

  lemma PduMn(c: Crypto, s: State, p: Mkpdu, env: Env, mi: Mi)
    requires HasRecord(s, mi) && HasRecord(HandlePdu(c, s, p, env), mi)
    ensures MnOf(s, mi) <= MnOf(HandlePdu(c, s, p, env), mi)
    ensures Accepts(s, p.basic) && p.basic.mi == mi ==>
      MnOf(s, mi) < p.basic.mn && MnOf(HandlePdu(c, s, p, env), mi) == p.basic.mn
  {
    if Accepts(s, p.basic) {
      var known := Record(s, p.basic, env.now);
      CollidesAfterRecord(s, p, env.now);
      if !Collides(s, p) {
        if mi == p.basic.mi {
          AcceptedOnce(c, s, p, env);
        } else {
          var i := FindPeer(s.peers, p.basic.mi);
          FindIn(known.peers, mi, FindPeer(s.peers, mi));
          ProcessOnward(c, known, i, p, env);
          RecordsKeepMn(known, Process(c, known, i, p, env), mi);
          hide Process;
        }
      }
    }
  }

  lemma {:induction false} AliveFinds(peers: seq<Peer>, own: Mi, now: nat, mi: Mi)
    requires GoodPeers(peers, own)
    ensures var r := Alive(peers, now);
      FindPeer(r, mi) < |r| ==> FindPeer(peers, mi) < |peers| && r[FindPeer(r, mi)] == peers[FindPeer(peers, mi)]
  {
    var r := Alive(peers, now);
    var i := FindPeer(r, mi);
    if i < |r| {
      assert r[i] in peers;
      var j :| 0 <= j < |peers| && peers[j] == r[i];
      assert FindPeer(peers, mi) <= j;
    }
  }

  /** As long as a peer's record lives, its MN never goes back, and each frame it accepts raises it. */
  lemma StepMn(c: Crypto, s: State, e: Event, env: Env, mi: Mi)
    requires Inv(c, s) && HasRecord(s, mi) && HasRecord(Step(c, s, e, env), mi)
    ensures MnOf(s, mi) <= MnOf(Step(c, s, e, env), mi)
    ensures TakesFrame(c, s, e, mi) ==>
      var p := Heard(c, s, e.frame).value;
      MnOf(s, mi) < p.basic.mn && MnOf(Step(c, s, e, env), mi) == p.basic.mn
  {
    match e
    case Receive(f) =>
      HandleFrameIs(c, s, f, env);
      hide HandleFrame, HandlePdu, Heard;
      if Heard(c, s, f).Some? {
        PduMn(c, s, Heard(c, s, f).value, env, mi);
      }
    case ExpirePeers(remove) =>
      AliveFinds(s.peers, s.mi, env.now, mi);
      ElectOnly(s, env.now);
      hide Alive, Expire, RemoveRxAll, ExpiredScis;
    case DropSak => RecordsKeepMn(s, DropUnsecure(s), mi);
    case MakeSak =>
      EnsureVote(c, s, env);
      OnwardVote(s, s, EnsureSak(c, s, env));
      RecordsKeepMn(s, EnsureSak(c, s, env), mi);
    case Send =>
  }

  lemma ElectOnly(s: State, now: nat)
    ensures Expire(s, now).peers == Alive(s.peers, now) || Expire(s, now).peers == s.peers
  {
    hide Alive;
  }

  function At(c: Crypto, s: State, events: seq<(Event, Env)>, k: nat): (r: State)
    requires k <= |events|
  {
    Run(c, s, events[..k])
  }

  lemma AtStep(c: Crypto, s: State, events: seq<(Event, Env)>, k: nat)
    requires k < |events|
    ensures At(c, s, events, k + 1) == Step(c, At(c, s, events, k), events[k].0, events[k].1)
  {
    assert events[..k + 1][..k] == events[..k];
    hide Step;
  }

  lemma AtGood(c: Crypto, cfg: Config, own: Mi, events: seq<(Event, Env)>, k: nat)
    requires k <= |events|
    ensures Inv(c, At(c, Initial(cfg, own), events, k))
  {
    InvariantOverRuns(c, cfg, own, events[..k]);
  }

  lemma {:induction false} MnNeverGoesBack(c: Crypto, cfg: Config, own: Mi, events: seq<(Event, Env)>, i: nat, j: nat, mi: Mi)
    requires i <= j <= |events|
    requires forall k | i <= k <= j :: HasRecord(At(c, Initial(cfg, own), events, k), mi)
    ensures MnOf(At(c, Initial(cfg, own), events, i), mi) <= MnOf(At(c, Initial(cfg, own), events, j), mi)
    decreases j - i
  {
    hide At, Step, Inv, HasRecord, MnOf, Initial;
    if i < j {
      var s := Initial(cfg, own);
      MnNeverGoesBack(c, cfg, own, events, i, j - 1, mi);
      AtGood(c, cfg, own, events, j - 1);
      AtStep(c, s, events, j - 1);
      var before := At(c, s, events, j - 1);
      assert HasRecord(before, mi) && HasRecord(At(c, s, events, j), mi);
      StepMn(c, before, events[j - 1].0, events[j - 1].1, mi);
    }
  }

  /** In every run, of two frames a peer record takes while it lives the later has the larger MN. */
  lemma FramesInOrder(c: Crypto, cfg: Config, own: Mi, events: seq<(Event, Env)>, i: nat, j: nat, mi: Mi)
    requires i < j < |events|
    requires forall k | i <= k <= j + 1 :: HasRecord(At(c, Initial(cfg, own), events, k), mi)
    requires TakesFrame(c, At(c, Initial(cfg, own), events, i), events[i].0, mi)
    requires TakesFrame(c, At(c, Initial(cfg, own), events, j), events[j].0, mi)
    ensures var s := Initial(cfg, own);
      Heard(c, At(c, s, events, i), events[i].0.frame).value.basic.mn
      < Heard(c, At(c, s, events, j), events[j].0.frame).value.basic.mn
  {
    hide At, Step, Inv, Heard, MnOf, HasRecord, Initial;
    var s := Initial(cfg, own);
    var a, b := At(c, s, events, i), At(c, s, events, j);
    AtGood(c, cfg, own, events, i);
    AtGood(c, cfg, own, events, j);
    MnNeverGoesBack(c, cfg, own, events, i + 1, j, mi);
    AtStep(c, s, events, i);
    AtStep(c, s, events, j);
    assert HasRecord(a, mi) && HasRecord(b, mi) && HasRecord(At(c, s, events, i + 1), mi) && HasRecord(At(c, s, events, j + 1), mi);
    StepMn(c, a, events[i].0, events[i].1, mi);
    StepMn(c, b, events[j].0, events[j].1, mi);
  }

  // -------------------------------------------------------------- generation

  /** What a step does to the keys, without saying where an adopted key came from. */
  lemma StepEffect(c: Crypto, s: State, e: Event, env: Env)
    requires Inv(c, s)
    ensures var r := Step(c, s, e, env);
      || Kept(s, r) || Cleared(s, r, env) || Generated(c, s, r, env)
      || (r.nextKn == s.nextKn && r.latest.ki.Some? && !OwnsKey(r))
  {
    hide Inv;
    if e.Receive? {
      HandleFrameIs(c, s, e.frame, env);
      hide HandleFrame, HandlePdu, Heard;
      var p := Heard(c, s, e.frame);
      if p.Some? {
        PduEffect(c, s, p.value, env);
      }
    } else {
      LocalEffect(c, s, e, env);
    }
  }

  predicate GeneratesAt(c: Crypto, s: State, events: seq<(Event, Env)>, k: nat)
    requires k < |events|
  {
    At(c, s, events, k + 1).nextKn != At(c, s, events, k).nextKn
  }

  function KeysMade(c: Crypto, s: State, events: seq<(Event, Env)>, k: nat): (n: nat)
    requires k <= |events|
  {
    if k == 0 then 0 else KeysMade(c, s, events, k - 1) + (if GeneratesAt(c, s, events, k - 1) then 1 else 0)
  }

  /** The KN that follows `n` generated keys. */
  function KnAfter(n: nat): (kn: u32) { n % 0xffff_ffff + 1 }

  /** The i-th key of a session has KN ((i - 1) mod (2^32 - 1)) + 1: never zero, strictly increasing
      until the 32-bit counter wraps. */
  lemma {:induction false} KeyNumbers(c: Crypto, cfg: Config, own: Mi, events: seq<(Event, Env)>, k: nat)
    requires k <= |events|
    ensures var s := Initial(cfg, own); At(c, s, events, k).nextKn == KnAfter(KeysMade(c, s, events, k))
  {
    hide At, Step, Inv, NextCounter, KnAfter, Initial;
    var s := Initial(cfg, own);
    if k == 0 {
      FirstKn(c, cfg, own, events);
    } else {
      KeyNumbers(c, cfg, own, events, k - 1);
      AtGood(c, cfg, own, events, k - 1);
      AtStep(c, s, events, k - 1);
      StepCounts(c, At(c, s, events, k - 1), events[k - 1].0, events[k - 1].1);
      CounterStep(KeysMade(c, s, events, k - 1));
    }
  }

  lemma FirstKn(c: Crypto, cfg: Config, own: Mi, events: seq<(Event, Env)>)
    ensures At(c, Initial(cfg, own), events, 0).nextKn == KnAfter(0)
  {
    hide Step, BestOf;
  }

  lemma StepCounts(c: Crypto, s: State, e: Event, env: Env)
    requires Inv(c, s)
    ensures var n := Step(c, s, e, env).nextKn; n == s.nextKn || n == NextCounter(s.nextKn)
  {
    hide Step, Inv;
    StepEffect(c, s, e, env);
  }

  lemma CounterStep(n: nat)
    ensures NextCounter(KnAfter(n)) == KnAfter(n + 1) && KnAfter(n) != KnAfter(n + 1)
  {
  }

  /** While no key is generated, an own latest key keeps the time it was generated at. */
  lemma {:induction false} OwnKeyTime(c: Crypto, cfg: Config, own: Mi, events: seq<(Event, Env)>, j: nat, k: nat)
    requires j < k <= |events| && GeneratesAt(c, Initial(cfg, own), events, j)
    requires forall i | j < i < k :: !GeneratesAt(c, Initial(cfg, own), events, i)
    ensures var r := At(c, Initial(cfg, own), events, k); OwnsKey(r) ==> r.lastSakTime == Some(events[j].1.now)
    decreases k - j
  {
    hide At, Step, Inv, Initial;
    var s := Initial(cfg, own);
    AtGood(c, cfg, own, events, k - 1);
    AtStep(c, s, events, k - 1);
    if k - 1 > j {
      OwnKeyTime(c, cfg, own, events, j, k - 1);
      assert !GeneratesAt(c, s, events, k - 1);
    }
    StepOwnKey(c, At(c, s, events, k - 1), events[k - 1].0, events[k - 1].1);
  }

  lemma StepOwnKey(c: Crypto, s: State, e: Event, env: Env)
    requires Inv(c, s)
    ensures var r := Step(c, s, e, env);
      OwnsKey(r) ==>
        if r.nextKn != s.nextKn then r.lastSakTime == Some(env.now)
        else OwnsKey(s) && r.lastSakTime == s.lastSakTime
  {
    hide Step, Inv;
    StepEffect(c, s, e, env);
    CounterMoves(s.nextKn);
  }

  lemma CounterMoves(n: u32)
    ensures NextCounter(n) != n
  {
  }

  /** A key is generated under the own MI with an AN other than the one it replaces; a participant
      that already holds its own key generates the next one at least MKA Life Time (6 s) after it. */
  lemma GenerationDiscipline(c: Crypto, cfg: Config, own: Mi, events: seq<(Event, Env)>, k: nat)
    requires k < |events| && GeneratesAt(c, Initial(cfg, own), events, k)
    ensures var a, b := At(c, Initial(cfg, own), events, k), At(c, Initial(cfg, own), events, k + 1);
      && b.latest.ki == Some(KeyId(a.mi, a.nextKn)) && b.mi == a.mi
      && b.latest.an < 4 && b.latest.an != a.latest.an
    ensures forall j | 0 <= j < k && GeneratesAt(c, Initial(cfg, own), events, j)
        && (forall i | j < i < k :: !GeneratesAt(c, Initial(cfg, own), events, i)) ::
      OwnsKey(At(c, Initial(cfg, own), events, k)) ==> events[k].1.now >= events[j].1.now + LIFE
  {
    var s := Initial(cfg, own);
    var a := At(c, s, events, k);
    InvariantOverRuns(c, cfg, own, events[..k]);
    AtStep(c, s, events, k);
    assert Inv(c, a) && a.latest.an < 4;
    assert At(c, s, events, k + 1).nextKn != a.nextKn;
    forall j | 0 <= j < k && GeneratesAt(c, s, events, j) && (forall i | j < i < k :: !GeneratesAt(c, s, events, i)) && OwnsKey(a)
      ensures a.lastSakTime == Some(events[j].1.now)
    {
      OwnKeyTime(c, cfg, own, events, j, k);
    }
    hide At, Step, Inv, GeneratesAt;
    StepGenerates(c, a, events[k].0, events[k].1);
  }

  lemma StepGenerates(c: Crypto, s: State, e: Event, env: Env)
    requires Inv(c, s) && s.latest.an < 4 && Step(c, s, e, env).nextKn != s.nextKn
    ensures var r := Step(c, s, e, env);
      && r.latest.ki == Some(KeyId(s.mi, s.nextKn)) && r.mi == s.mi && r.latest.an < 4 && r.latest.an != s.latest.an
      && (OwnsKey(s) && s.lastSakTime.Some? ==> env.now >= s.lastSakTime.value + LIFE)
  {
    hide Step, Inv;
    StepEffect(c, s, e, env);
  }
}
