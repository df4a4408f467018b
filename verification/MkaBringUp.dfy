/** A group that has elected its key server gets a key: three exchange rounds take a pending SAK from the key server to
    everybody, receiving and transmitting. */
module MkaBringUp {
  import opened Wire
  import opened Mkpdu
  import opened Mka
  import opened MkaInvariant
  import opened MkaRuns
  import opened MkaElection
  import opened MkaExact

  // ------------------------------------------------------------- a settled group

  /** `s`, as participant `i`, has the right role and true records. */
  predicate Loyal(group: seq<State>, m: nat, i: nat, s: State)
    requires m < |group|
  {
    && s.role.isKeyServer == (i == m) && s.role.serverSci == Sci(group[m])
    && Truthful(group, i, s) && (i != m ==> SeesServer(group, m, s))
  }

  /** One CAK and one protection, everybody acquainted, and `m` elected by everybody. */
  predicate Settled(c: Crypto, group: seq<State>, m: nat) {
    && Acquainted(c, group) && First(group, m) && SameSecrets(group)
    && forall i | 0 <= i < |group| :: Loyal(group, m, i, group[i])
  }

  predicate SameSecrets(group: seq<State>) {
    forall i, j | 0 <= i < |group| && 0 <= j < |group| ::
      group[i].cfg.kek == group[j].cfg.kek && group[i].cfg.encrypt == group[j].cfg.encrypt
  }

  lemma SentIsLoyal(group: seq<State>, m: nat, i: nat)
    requires m < |group| && i < |group| && Loyal(group, m, i, group[i])
    ensures Loyal(group, m, i, Sent(group[i]))
  {
  }

  /** Hearing `j` leaves true records. */
  lemma UpdatedLoyal(c: Crypto, group: seq<State>, m: nat, i: nat, j: nat, s: State, r: State)
    requires Settled(c, group, m) && i < |group| && j < |group| && i != j && Loyal(group, m, i, s)
    requires HasRecord(s, group[j].mi) && Updated(s, FindPeer(s.peers, group[j].mi), Pdu(group[j]).basic, r)
    ensures Truthful(group, i, r) && (i != m ==> SeesServer(group, m, r))
  {
    PduIs(group[j]);
    hide Pdu, Knows;
    var b := Pdu(group[j]).basic;
    var x := FindPeer(s.peers, group[j].mi);
    assert Loyal(group, m, j, group[j]) && group[m].cfg.canBeKeyServer;
    forall k | 0 <= k < |group| && k != i
      ensures HasRecord(r, group[k].mi)
      ensures var p := r.peers[FindPeer(r.peers, group[k].mi)];
        && p.sci == Sci(group[k]) && p.priority == group[k].cfg.priority && (p.keyServer ==> group[k].cfg.canBeKeyServer)
        && (k == m ==> p.keyServer)
    {
      assert HasRecord(s, group[k].mi);
      UpdatedFinds(s, x, b, r, group[k].mi);
      var y := FindPeer(s.peers, group[k].mi);
      assert y != x ==> AdvertOf(r.peers[y]) == AdvertOf(s.peers[y]);
      assert y == x ==> k == j;
    }
  }

  /** Participant `i` in the middle of a round of a settled group. */
  predicate InRound(c: Crypto, group: seq<State>, m: nat, i: nat, s: State)
    requires m < |group| && i < |group|
  {
    Midway(c, group, i, s) && Loyal(group, m, i, s)
  }

  lemma Elects(c: Crypto, group: seq<State>, m: nat, i: nat, s: State)
    requires Acquainted(c, group) && First(group, m) && i < |group| && Midway(c, group, i, s) && Decided(s)
    requires Truthful(group, i, s) && (i != m ==> SeesServer(group, m, s))
    ensures Loyal(group, m, i, s)
  {
    hide Acquainted, First, Midway, Decided, Truthful, SeesServer;
    FirstIsMember(group, m);
    if i == m {
      WinnerAtHome(c, group, m, s);
    } else {
      WinnerElsewhere(c, group, m, i, s);
    }
  }

  lemma FirstIsMember(group: seq<State>, m: nat)
    requires First(group, m)
    ensures m < |group|
  {
  }

  /** What is recorded of `k` stays in its place, as fresh as before. */
  predicate Stays(group: seq<State>, s: State, r: State, k: nat)
    requires k < |group|
  {
    && HasRecord(s, group[k].mi) && FindPeer(r.peers, group[k].mi) == FindPeer(s.peers, group[k].mi) < |r.peers|
    && Fresh(group, r, k) == Fresh(group, s, k)
  }

  /** An MKPDU of the round is news and is taken, or changes nothing. */
  lemma InRoundStep(c: Crypto, group: seq<State>, m: nat, i: nat, j: nat, s: State, env: Env)
    requires Settled(c, group, m) && i < |group| && j < |group| && i != j && InRound(c, group, m, i, s)
    ensures var r := HandlePdu(c, s, Pdu(group[j]), env);
      && InRound(c, group, m, i, r) && Fresh(group, r, j)
      && (forall k | 0 <= k < |group| && k != i && k != j :: Stays(group, s, r, k))
      && (Fresh(group, s, j) ==> r == s)
      && (!Fresh(group, s, j) ==> ForUs(s, Pdu(group[j]).basic) && !ClaimsOurs(s, Pdu(group[j])))
  {
    hide Pdu, HandlePdu, Decided, Collides, Fresh, Updated, Inv, Accepts, Midway, Acquainted, First, Truthful, SeesServer,
         ForUs, ClaimsOurs, SameSecrets;
    var p := Pdu(group[j]);
    PduIs(group[j]);
    MidwayHeeds(c, group, i, j, s);
    NoCollision(c, group, i, j, s);
    MidwayStep(c, group, i, j, s, env);
    if Behind(group, s, j) {
      BehindIsNotFresh(group, s, j);
      NewIsAccepted(c, group, i, j, s);
      AcceptedIsForUs(c, s, p);
      var r := HandlePdu(c, s, p, env);
      TakenDecides(c, s, p, env);
      TakenUpdates(c, s, p, env);
      UpdatedLoyal(c, group, m, i, j, s, r);
      Elects(c, group, m, i, r);
      forall k | 0 <= k < |group| && k != i && k != j ensures Stays(group, s, r, k) {
        OthersStay(c, group, i, j, k, s, r);
      }
    } else {
      Ignored(c, s, p, env);
      forall k | 0 <= k < |group| && k != i && k != j ensures Stays(group, s, s, k) {
        MidwayHeeds(c, group, i, k, s);
      }
    }
  }

  lemma BehindIsNotFresh(group: seq<State>, s: State, j: nat)
    requires j < |group| && Behind(group, s, j)
    ensures !Fresh(group, s, j)
  {
  }

  lemma AcceptedIsForUs(c: Crypto, s: State, p: Mkpdu)
    requires Inv(c, s) && Accepts(s, p.basic) && !Collides(s, p)
    ensures ForUs(s, p.basic) && !ClaimsOurs(s, p)
  {
    ForUsIs(s, p.basic);
  }

  /** Hearing `j` leaves what is recorded of `k`. */
  lemma OthersStay(c: Crypto, group: seq<State>, i: nat, j: nat, k: nat, s: State, r: State)
    requires Acquainted(c, group) && i < |group| && j < |group| && k < |group| && k != j && k != i && Midway(c, group, i, s)
    requires HasRecord(s, group[j].mi) && Updated(s, FindPeer(s.peers, group[j].mi), Pdu(group[j]).basic, r)
    ensures Stays(group, s, r, k)
  {
    PduIs(group[j]);
    hide Pdu;
    assert Heeds(group, s, k);
    var x, y := FindPeer(s.peers, group[j].mi), FindPeer(s.peers, group[k].mi);
    UpdatedFinds(s, x, Pdu(group[j]).basic, r, group[k].mi);
    assert group[j].mi != group[k].mi;
    assert AdvertOf(r.peers[y]) == AdvertOf(s.peers[y]);
  }

  // ------------------------------------------------------------------ the key

  datatype TheKey = TheKey(ki: KeyId, an: u8, sak: bytes)

  predicate Holds(s: State, k: TheKey) {
    s.latest.ki == Some(k.ki) && s.latest.an == k.an && s.sak == Some(k.sak)
  }

  /** Who names the key has it, as agreement on keys says. */
  predicate Consistent(s: State, k: TheKey) { s.latest.ki == Some(k.ki) ==> Holds(s, k) }

  /** The key is its own and it wants no other. */
  predicate Serves(s: State, k: TheKey) { Holds(s, k) && k.ki.mi == s.mi && !s.role.needNewSak }

  predicate ReadyAt(group: seq<State>, s: State, j: nat)
    requires j < |group|
  {
    HasRecord(s, group[j].mi) && SenderOf(s, group[j].mi).rxReady
  }

  predicate OthersHold(group: seq<State>, m: nat, k: TheKey) {
    forall j | 0 <= j < |group| && j != m :: Holds(group[j], k)
  }

  /** The key server in the middle of a round. */
  predicate ServerMid(group: seq<State>, m: nat, k: TheKey, s: State)
    requires m < |group|
  {
    && Serves(s, k) && (group[m].latest.tx ==> s.latest.tx)
    && (forall j | 0 <= j < |group| && j != m && Holds(group[j], k) :: Fresh(group, s, j) ==> ReadyAt(group, s, j))
    && (OthersHold(group, m, k) && AllFresh(group, m, s) ==> s.latest.tx)
  }

  /** A member in the middle of a round: it has the key once it heard of it, and transmits once the key server does. */
  predicate MemberMid(group: seq<State>, m: nat, k: TheKey, i: nat, s: State)
    requires m < |group| && i < |group|
  {
    && Consistent(s, k)
    && (Holds(group[i], k) || (Fresh(group, s, m) && group[m].role.distSak.Some?) ==> Holds(s, k))
    && (Holds(group[i], k) && (group[i].latest.tx || (Fresh(group, s, m) && group[m].latest.tx)) ==> s.latest.tx)
  }

  lemma PduUse(s: State)
    ensures var u := Pdu(s).sakUse;
      && u.Some? == s.latest.ki.Some?
      && (u.Some? ==> Some(u.value.latestKi) == s.latest.ki && u.value.latestTx == s.latest.tx && u.value.latestRx == s.latest.rx
                      && u.value.latestLlpn == 0)
  {
    hide Select, Sort;
  }

  /** Nothing in a round makes the key server want another key. */
  lemma ServerKeeps(c: Crypto, group: seq<State>, m: nat, k: TheKey, j: nat, s: State, env: Env)
    requires Settled(c, group, m) && j < |group| && j != m && InRound(c, group, m, m, s) && Serves(s, k)
    requires ForUs(s, Pdu(group[j]).basic) && !ClaimsOurs(s, Pdu(group[j])) && Knows(s, group[j]) && Inv(c, s)
    requires InRound(c, group, m, m, HandlePdu(c, s, Pdu(group[j]), env))
    ensures var r := HandlePdu(c, s, Pdu(group[j]), env);
      Serves(r, k) && r.nextKn == s.nextKn && r.latest.ki == s.latest.ki && r.role.isKeyServer
  {
    hide Pdu, HandlePdu, Midway, Settled, Truthful, SeesServer, ForUs, ClaimsOurs, Inv, HeardUs, WasLive, SomeLive,
         LiveAreCapable;
    var p := Pdu(group[j]);
    PduIs(group[j]);
    PduUse(group[j]);
    GenerationOnPdu(c, s, p, env);
    AdoptionExact(c, s, p, env);
    InvPeers(c, s);
    WasLiveIs(s, p.basic.mi);
    PduFateSame(c, s, p, env);
  }

  lemma InvPeers(c: Crypto, s: State)
    requires Inv(c, s)
    ensures GoodPeers(s.peers, s.mi)
  {
  }

  lemma PduFateSame(c: Crypto, s: State, p: Mkpdu, env: Env)
    requires Inv(c, s) && ForUs(s, p.basic) && !ClaimsOurs(s, p)
    ensures HandlePdu(c, s, p, env).mi == s.mi
  {
    ForUsIs(s, p.basic);
    AcceptedOnce(c, s, p, env);
  }

  lemma ServerStep(c: Crypto, group: seq<State>, m: nat, k: TheKey, j: nat, s: State, env: Env)
    requires Settled(c, group, m) && j < |group| && j != m && InRound(c, group, m, m, s) && ServerMid(group, m, k, s)
    ensures ServerMid(group, m, k, HandlePdu(c, s, Pdu(group[j]), env))
  {
    hide Pdu, HandlePdu, Midway, Settled, Truthful, SeesServer, ForUs, ClaimsOurs, Inv, Fresh, LiveAreReady, Acquainted;
    var p := Pdu(group[j]);
    var r := HandlePdu(c, s, p, env);
    SettledIs(c, group, m);
    InRoundStep(c, group, m, m, j, s, env);
    if !Fresh(group, s, j) {
      MidwayHeeds(c, group, m, j, s);
      MidwayHeeds(c, group, m, j, r);
      ServerKeeps(c, group, m, k, j, s, env);
      ActivationExact(c, s, p, env);
      PduIs(group[j]);
      forall x | 0 <= x < |group| && x != m && Holds(group[x], k) && Fresh(group, r, x) ensures ReadyAt(group, r, x) {
        if x == j {
          ConfirmsKey(c, group, m, k, j, s, r);
        } else {
          StaysReady(c, group, m, j, x, s, r, p.basic.mi);
        }
      }
      if OthersHold(group, m, k) && AllFresh(group, m, r) {
        assert Fresh(group, r, j);
        ConfirmsKey(c, group, m, k, j, s, r);
        AllReadyThen(c, group, m, r);
      }
    }
  }

  lemma SettledIs(c: Crypto, group: seq<State>, m: nat)
    requires Settled(c, group, m)
    ensures Acquainted(c, group) && First(group, m) && m < |group|
    ensures forall i | 0 <= i < |group| :: Loyal(group, m, i, group[i]) && Inv(c, group[i])
  {
  }

  /** The MKPDU of a holder, heard by the key server, confirms the key and its reception. */
  lemma ConfirmsKey(c: Crypto, group: seq<State>, m: nat, k: TheKey, j: nat, s: State, r: State)
    requires j < |group| && Holds(group[j], k) && s.latest.ki == Some(k.ki) && Inv(c, group[j])
    requires HasRecord(r, group[j].mi) && r.role.isKeyServer
    requires var p := Pdu(group[j]);
      SpeaksOf(s, p) && SenderOf(r, group[j].mi).live ==> SenderOf(r, group[j].mi).rxReady == p.sakUse.value.latestRx
    ensures SpeaksOf(s, Pdu(group[j])) && (SenderOf(r, group[j].mi).live ==> SenderOf(r, group[j].mi).rxReady)
  {
    PduUse(group[j]);
    hide Pdu;
  }

  lemma StaysReady(c: Crypto, group: seq<State>, m: nat, j: nat, x: nat, s: State, r: State, mi: Mi)
    requires Acquainted(c, group) && x < |group| && j < |group| && x != j && mi == group[j].mi && Stays(group, s, r, x)
    requires ReadyAt(group, s, x)
    requires forall y | 0 <= y < |s.peers| && s.peers[y].mi != mi ::
      y < |r.peers| && r.peers[y].mi == s.peers[y].mi && r.peers[y].rxReady == s.peers[y].rxReady
    ensures ReadyAt(group, r, x)
  {
    assert group[x].mi != group[j].mi;
  }

  /** Everybody live is a member, and every member is ready. */
  lemma AllReadyThen(c: Crypto, group: seq<State>, m: nat, r: State)
    requires m < |group| && Midway(c, group, m, r) && forall x | 0 <= x < |group| && x != m :: ReadyAt(group, r, x)
    ensures LiveAreReady(r.peers)
  {
    forall y | 0 <= y < |r.peers| && r.peers[y].live ensures r.peers[y].rxReady {
      assert r.peers[y] in r.peers;
      var x :| 0 <= x < |group| && group[x].mi == r.peers[y].mi;
      FindUnique(r.peers, r.mi, r.peers[y]);
      assert x != m && ReadyAt(group, r, x);
    }
  }

  // ------------------------------------------------------------------ members

  /** The pending Distributed SAK of the key server is the key, wrapped for everybody. */
  lemma PendingIsKey(c: Crypto, group: seq<State>, m: nat, k: TheKey, i: nat)
    requires c.Lawful() && m < |group| && i < |group| && SameSecrets(group) && Inv(c, group[m]) && Serves(group[m], k)
    requires group[m].role.isKeyServer && group[m].role.distSak.Some?
    ensures var d := Pdu(group[m]).distSak;
      && d.Some? && d.value.kn == k.ki.kn && d.value.an == k.an && k.ki == KeyId(group[m].mi, k.ki.kn)
      && d.value.confidentialityOffset == (if group[i].cfg.encrypt then 1 else 0) && d.value.cipherSuite == None
      && d.value.wrappedSak != [] && c.unwrap(group[i].cfg.kek, d.value.wrappedSak) == Some(k.sak) && |k.sak| == 16
  {
    PduIs(group[m]);
    hide Pdu;
    assert group[m].cfg.kek == group[i].cfg.kek;
  }

  lemma NonzeroSci(s: State)
    ensures Sci(s) != 0
  {
  }

  /** Only the key server's own record has its SCI. */
  lemma ElectedIsServer(c: Crypto, group: seq<State>, m: nat, i: nat, j: nat, r: State)
    requires Acquainted(c, group) && m < |group| && i < |group| && j < |group| && i != j && Loyal(group, m, i, r)
    ensures HasRecord(r, group[j].mi) && (FromElected(r.role, SenderOf(r, group[j].mi)) ==> j == m)
    ensures j == m ==> FromElected(r.role, SenderOf(r, group[j].mi))
  {
    NonzeroSci(group[m]);
    if j != m {
      assert group[j].cfg.mac != group[m].cfg.mac;
    }
  }

  /** At a member an MKPDU of the round brings a key exactly when it is the key server's and distributes one. */
  lemma BringsInRound(c: Crypto, group: seq<State>, m: nat, k: TheKey, i: nat, j: nat, r: State)
    requires c.Lawful() && Settled(c, group, m) && i < |group| && j < |group| && i != j && i != m && Serves(group[m], k)
    requires Loyal(group, m, i, r) && Knows(r, group[j])
    ensures Brings(c, group[i].cfg, r.role, SenderOf(r, group[j].mi), Pdu(group[j])) <==> j == m && group[m].role.distSak.Some?
    ensures j == m && group[m].role.distSak.Some? ==>
      var d := Pdu(group[j]).distSak;
      && d.Some? && KeyId(group[j].mi, d.value.kn) == k.ki && d.value.an == k.an
      && c.unwrap(group[i].cfg.kek, d.value.wrappedSak) == Some(k.sak)
  {
    SettledIs(c, group, m);
    ElectedIsServer(c, group, m, i, j, r);
    PduIs(group[j]);
    if j == m && group[m].role.distSak.Some? {
      PendingIsKey(c, group, m, k, i);
    }
    hide Pdu, Acquainted, First, Truthful, SeesServer, Inv;
  }

  lemma MemberStep(c: Crypto, group: seq<State>, m: nat, k: TheKey, i: nat, j: nat, s: State, env: Env)
    requires c.Lawful() && Settled(c, group, m) && i < |group| && j < |group| && i != j && i != m && Serves(group[m], k)
    requires m < |group| && InRound(c, group, m, i, s) && MemberMid(group, m, k, i, s)
    ensures MemberMid(group, m, k, i, HandlePdu(c, s, Pdu(group[j]), env))
  {
    hide Pdu, HandlePdu, Midway, Settled, Truthful, SeesServer, ForUs, ClaimsOurs, Inv, Fresh, LiveAreReady, Acquainted, Brings,
         SomeLive, LiveAreCapable, WantsRekey;
    var p := Pdu(group[j]);
    var r := HandlePdu(c, s, p, env);
    SettledIs(c, group, m);
    InRoundStep(c, group, m, i, j, s, env);
    if !Fresh(group, s, j) {
      MidwayHeeds(c, group, i, j, s);
      MidwayHeeds(c, group, i, j, r);
      MidwayCfg(c, group, i, s);
      PduIs(group[j]);
      PduUse(group[j]);
      GenerationOnPdu(c, s, p, env);
      AdoptionExact(c, s, p, env);
      BringsInRound(c, group, m, k, i, j, r);
      ElectedIsServer(c, group, m, i, j, r);
      assert j != m ==> Stays(group, s, r, m);
      if r.latest.ki == s.latest.ki {
        ActivationExact(c, s, p, env);
      }
    }
  }

  lemma MidwayCfg(c: Crypto, group: seq<State>, i: nat, s: State)
    requires i < |group| && Midway(c, group, i, s)
    ensures s.cfg == group[i].cfg
  {
  }

  // ------------------------------------------------------------------- rounds

  /** What a round does about the key, for participant `i`. */
  predicate KeyMid(group: seq<State>, m: nat, k: TheKey, i: nat, s: State)
    requires m < |group| && i < |group|
  {
    if i == m then ServerMid(group, m, k, s) else MemberMid(group, m, k, i, s)
  }

  lemma KeyStart(c: Crypto, group: seq<State>, m: nat, k: TheKey, i: nat)
    requires Settled(c, group, m) && |group| >= 2 && i < |group| && Serves(group[m], k) && Consistent(group[i], k)
    requires m < |group|
    ensures KeyMid(group, m, k, i, Sent(group[i]))
  {
    hide Truthful, SeesServer, First, Fresh, Behind;
    forall j | 0 <= j < |group| && j != i ensures !Fresh(group, Sent(group[i]), j) {
      FirstIsNew(c, group, i, j);
      BehindIsNotFresh(group, Sent(group[i]), j);
    }
    if i == m {
      var other := if m == 0 then 1 else 0;
      assert !Fresh(group, Sent(group[m]), other);
    }
  }

  lemma {:induction false} KeyHandle(c: Crypto, group: seq<State>, m: nat, k: TheKey, i: nat, order: seq<(nat, Env)>)
    requires c.Lawful() && Settled(c, group, m) && MnRoom(group, 1) && |group| >= 2 && i < |group| && m < |group|
    requires Serves(group[m], k) && Consistent(group[i], k)
    requires forall x | 0 <= x < |order| :: order[x].0 < |group| && order[x].0 != i
    ensures var r := Handle(c, group, Sent(group[i]), order); InRound(c, group, m, i, r) && KeyMid(group, m, k, i, r)
  {
    hide Settled, Midway, Loyal, HandlePdu, Pdu, ServerMid, MemberMid, Serves, Consistent, MnRoom;
    if order == [] {
      KeyStart(c, group, m, k, i);
      SettledIs(c, group, m);
      MidwayStart(c, group, i);
      SentIsLoyal(group, m, i);
    } else {
      var n := |order| - 1;
      KeyHandle(c, group, m, k, i, order[..n]);
      var s := Handle(c, group, Sent(group[i]), order[..n]);
      InRoundStep(c, group, m, i, order[n].0, s, order[n].1);
      if i == m {
        ServerStep(c, group, m, k, order[n].0, s, order[n].1);
      } else {
        MemberStep(c, group, m, k, i, order[n].0, s, order[n].1);
      }
    }
  }

  /** A round keeps a settled group settled and moves the key on. */
  lemma KeyRound(c: Crypto, group: seq<State>, m: nat, k: TheKey, orders: seq<seq<(nat, Env)>>, i: nat)
    requires c.Lawful() && Settled(c, group, m) && MnRoom(group, 1) && |group| >= 2 && AllFull(|group|, orders) && i < |group|
    requires m < |group| && Serves(group[m], k) && Consistent(group[i], k)
    ensures var r := Round(c, group, orders)[i];
      InRound(c, group, m, i, r) && KeyMid(group, m, k, i, r) && AllFresh(group, i, r)
  {
    hide Settled, Midway, Loyal, KeyMid, Serves, Consistent, MnRoom, Handle, Acquainted, AllFresh, Decided;
    assert Full(|group|, i, orders[i]);
    KeyHandle(c, group, m, k, i, orders[i]);
    SettledIs(c, group, m);
    RoundEffect(c, group, orders, i);
  }

  lemma RoundSettles(c: Crypto, group: seq<State>, m: nat, k: TheKey, orders: seq<seq<(nat, Env)>>)
    requires c.Lawful() && Settled(c, group, m) && MnRoom(group, 1) && |group| >= 2 && AllFull(|group|, orders) && m < |group|
    requires Serves(group[m], k) && forall i | 0 <= i < |group| :: Consistent(group[i], k)
    ensures var r := Round(c, group, orders);
      && Settled(c, r, m) && forall i | 0 <= i < |group| :: r[i].mn == group[i].mn + 1
  {
    hide Midway, KeyMid, Serves, Consistent, MnRoom, Acquainted, AllFresh, Round, Truthful, SeesServer, First;
    var r := Round(c, group, orders);
    RoundAcquaints(c, group, orders);
    forall i | 0 <= i < |group|
      ensures r[i].cfg == group[i].cfg && r[i].mi == group[i].mi && r[i].mn == group[i].mn + 1 && Loyal(group, m, i, r[i])
    {
      KeyRound(c, group, m, k, orders, i);
      MidwayIds(c, group, i, r[i]);
    }
    SameFirst(group, r, m);
    forall i | 0 <= i < |group| ensures Loyal(r, m, i, r[i]) {
      SameLoyal(group, r, m, i, r[i]);
    }
  }

  lemma MidwayIds(c: Crypto, group: seq<State>, i: nat, s: State)
    requires i < |group| && Midway(c, group, i, s)
    ensures s.cfg == group[i].cfg && s.mi == group[i].mi && s.mn == group[i].mn + 1
  {
  }

  lemma SameLoyal(group: seq<State>, r: seq<State>, m: nat, i: nat, s: State)
    requires |r| == |group| && m < |group| && Loyal(group, m, i, s)
    requires forall j | 0 <= j < |group| :: r[j].cfg == group[j].cfg && r[j].mi == group[j].mi
    ensures Loyal(r, m, i, s)
  {
  }

  // --------------------------------------------------------------- the theorem

  lemma RoomLess(group: seq<State>, n: nat, m: nat)
    requires MnRoom(group, n) && m <= n
    ensures MnRoom(group, m)
  {
  }

  lemma RoomNext(group: seq<State>, r: seq<State>, n: nat)
    requires MnRoom(group, n + 1) && |r| == |group| && forall i | 0 <= i < |group| :: r[i].mn == group[i].mn + 1
    ensures MnRoom(r, n)
  {
  }

  /** What one round does to the key of everybody. */
  lemma RoundKeys(c: Crypto, group: seq<State>, m: nat, k: TheKey, orders: seq<seq<(nat, Env)>>)
    requires c.Lawful() && Settled(c, group, m) && MnRoom(group, 1) && |group| >= 2 && AllFull(|group|, orders) && m < |group|
    requires Serves(group[m], k) && forall i | 0 <= i < |group| :: Consistent(group[i], k)
    ensures var r := Round(c, group, orders);
      && Serves(r[m], k) && (group[m].latest.tx || OthersHold(group, m, k) ==> r[m].latest.tx)
      && (forall i | 0 <= i < |group| :: Consistent(r[i], k))
      && (group[m].role.distSak.Some? || OthersHold(group, m, k) ==> OthersHold(r, m, k))
      && (OthersHold(group, m, k) && group[m].latest.tx ==> forall i | 0 <= i < |group| :: r[i].latest.tx)
  {
    hide Midway, MnRoom, Acquainted, Round, Loyal, Settled, Holds;
    var r := Round(c, group, orders);
    forall i | 0 <= i < |group| ensures InRound(c, group, m, i, r[i]) && KeyMid(group, m, k, i, r[i]) && AllFresh(group, i, r[i]) {
      KeyRound(c, group, m, k, orders, i);
    }
    assert KeyMid(group, m, k, m, r[m]) && AllFresh(group, m, r[m]);
    hide Fresh;
    forall i | 0 <= i < |group| && i != m ensures MemberMid(group, m, k, i, r[i]) && Fresh(group, r[i], m) {
      assert KeyMid(group, m, k, i, r[i]) && AllFresh(group, i, r[i]);
    }
    ServesHolds(r[m], k);
  }

  lemma ServesHolds(s: State, k: TheKey)
    requires Serves(s, k)
    ensures Holds(s, k) && Consistent(s, k)
  {
  }

  /** A key server with a pending SAK, elected by a group of one CAK and one protection whose members are mutually
      live: three full exchange rounds, in any order and with repeats, leave everybody holding that key under the same
      association number, transmitting with it, and secured. */
  lemma BringUp(
    c: Crypto, group: seq<State>, m: nat, k: TheKey,
    first: seq<seq<(nat, Env)>>, second: seq<seq<(nat, Env)>>, third: seq<seq<(nat, Env)>>)
    requires c.Lawful() && Settled(c, group, m) && MnRoom(group, 3) && |group| >= 2 && m < |group|
    requires AllFull(|group|, first) && AllFull(|group|, second) && AllFull(|group|, third)
    requires Serves(group[m], k) && group[m].role.distSak.Some? && forall i | 0 <= i < |group| :: Consistent(group[i], k)
    ensures var r := Round(c, Round(c, Round(c, group, first), second), third);
      forall i | 0 <= i < |group| :: Holds(r[i], k) && r[i].latest.tx && Secured(r[i])
  {
    hide Midway, MnRoom, Acquainted, Round, Loyal, Settled, Serves, Consistent, Holds, Secured, AllFull;
    var g1 := Round(c, group, first);
    RoomLess(group, 3, 1);
    RoundSettles(c, group, m, k, first);
    RoundKeys(c, group, m, k, first);
    RoomNext(group, g1, 2);
    RoomLess(g1, 2, 1);
    var g2 := Round(c, g1, second);
    RoundSettles(c, g1, m, k, second);
    RoundKeys(c, g1, m, k, second);
    RoomNext(g1, g2, 1);
    var g3 := Round(c, g2, third);
    RoundSettles(c, g2, m, k, third);
    RoundKeys(c, g2, m, k, third);
    SettledIs(c, g3, m);
    ServesHolds(g3[m], k);
    forall i | 0 <= i < |group| ensures Secured(g3[i]) {
      assert Holds(g3[i], k);
      IsSecured(c, g3, i, k);
    }
  }

  lemma IsSecured(c: Crypto, group: seq<State>, i: nat, k: TheKey)
    requires Acquainted(c, group) && |group| >= 2 && i < |group| && Inv(c, group[i]) && Holds(group[i], k) && group[i].latest.tx
    ensures Secured(group[i])
  {
    var j := if i == 0 then 1 else 0;
    assert Knows(group[i], group[j]);
    var q := SenderOf(group[i], group[j].mi);
    assert q in group[i].peers && q.live;
  }

  // ------------------------------------------------------------ from the start

  lemma VoteFinds(s: State, r: State, mi: Mi)
    requires SameVote(s, r) && HasRecord(s, mi)
    ensures HasRecord(r, mi) && FindPeer(r.peers, mi) == FindPeer(s.peers, mi)
    ensures AdvertOf(SenderOf(r, mi)) == AdvertOf(SenderOf(s, mi))
  {
    VoteMis(s, r);
    FindIn(r.peers, mi, FindPeer(s.peers, mi));
  }

  lemma VoteMembers(group: seq<State>, s: State, r: State)
    requires SameVote(s, r) && OnlyMembers(group, s)
    ensures OnlyMembers(group, r)
  {
    forall p | p in r.peers && p.live ensures exists j | 0 <= j < |group| :: group[j].mi == p.mi {
      var x :| 0 <= x < |r.peers| && r.peers[x] == p;
      assert AdvertOf(r.peers[x]) == AdvertOf(s.peers[x]) && s.peers[x] in s.peers;
    }
  }

  lemma VoteLoyal(group: seq<State>, m: nat, i: nat, s: State, r: State)
    requires m < |group| && Loyal(group, m, i, s) && SameVote(s, r)
    ensures Loyal(group, m, i, r)
  {
    forall j | 0 <= j < |group| && j != i
      ensures HasRecord(r, group[j].mi) && AdvertOf(SenderOf(r, group[j].mi)) == AdvertOf(SenderOf(s, group[j].mi))
    {
      VoteFinds(s, r, group[j].mi);
    }
  }

  lemma VoteKnows(s: State, r: State, t: State, t': State)
    requires SameVote(s, r) && KnowsBehind(s, t) && t'.mi == t.mi && t'.mn == t.mn
    ensures KnowsBehind(r, t')
  {
    VoteFinds(s, r, t.mi);
  }

  lemma MakingAcquaints(c: Crypto, g: seq<State>, m: nat, r: State)
    requires Acquainted(c, g) && m < |g| && SameVote(g[m], r) && Inv(c, r)
    ensures Acquainted(c, g[m := r])
  {
    hide Inv, KnowsBehind, SameVote, OnlyMembers;
    var h := g[m := r];
    VoteIds(g[m], r);
    forall i | 0 <= i < |g| ensures Inv(c, h[i]) && OnlyMembers(h, h[i]) {
      if i == m {
        VoteMembers(g, g[m], r);
      }
      SameMembers(g, h, h[i]);
    }
    forall i, j | 0 <= i < |g| && 0 <= j < |g| && i != j ensures KnowsBehind(h[i], h[j]) {
      assert KnowsBehind(g[i], g[j]);
      SameVoteSelf(g[i]);
      VoteKnows(g[i], h[i], g[j], h[j]);
    }
  }

  /** Making a key at `m` does not unsettle the group. */
  lemma MakingSettles(c: Crypto, g: seq<State>, m: nat, r: State)
    requires Settled(c, g, m) && m < |g| && SameVote(g[m], r) && Inv(c, r)
    ensures Settled(c, g[m := r], m)
  {
    hide Inv, Acquainted, First, SameVote, Loyal;
    var h := g[m := r];
    VoteIds(g[m], r);
    MakingAcquaints(c, g, m, r);
    SameFirst(g, h, m);
    forall i | 0 <= i < |g| ensures Loyal(h, m, i, h[i]) {
      assert Loyal(g, m, i, g[i]);
      if i == m {
        VoteLoyal(g, m, m, g[m], r);
      }
      SameLoyal(g, h, m, i, h[i]);
    }
  }

  lemma VoteIds(s: State, r: State)
    requires SameVote(s, r)
    ensures r.cfg == s.cfg && r.mi == s.mi && r.mn == s.mn
  {
  }

  /** Two rounds settle an acquainted group; the records are then those of the second round. */
  lemma TwoRoundsSettle(c: Crypto, group: seq<State>, m: nat, first: seq<seq<(nat, Env)>>, second: seq<seq<(nat, Env)>>)
    requires Acquainted(c, group) && First(group, m) && SameSecrets(group) && MnRoom(group, 2) && |group| >= 2 && m < |group|
    requires AllFull(|group|, first) && AllFull(|group|, second)
    ensures var g1 := Round(c, group, first); var g := Round(c, g1, second);
      && Settled(c, g, m) && AllFresh(g1, m, g[m]) && Midway(c, g1, m, g[m])
      && forall i | 0 <= i < |group| :: g[i].mn == group[i].mn + 2
  {
    hide Acquainted, Midway, Decided, AllFresh, Round, Truthful, SeesServer, First, AllFull, MnRoom;
    RoomLess(group, 2, 1);
    var g1 := Round(c, group, first);
    RoundAcquaints(c, group, first);
    forall i | 0 <= i < |group| ensures g1[i].cfg == group[i].cfg && g1[i].mn == group[i].mn + 1 {
      RoundEffect(c, group, first, i);
      MidwayIds(c, group, i, g1[i]);
    }
    RoundEffect(c, group, first, m);
    FreshIsTruthful(c, group, m, g1[m]);
    WinnerAtHome(c, group, m, g1[m]);
    SameFirst(group, g1, m);
    RoomNext(group, g1, 1);
    var g := Round(c, g1, second);
    RoundAcquaints(c, g1, second);
    forall i | 0 <= i < |group|
      ensures g[i].cfg == g1[i].cfg && g[i].mi == g1[i].mi && g[i].mn == g1[i].mn + 1 && Loyal(g1, m, i, g[i])
    {
      RoundEffect(c, g1, second, i);
      MidwayIds(c, g1, i, g[i]);
      FreshIsTruthful(c, g1, i, g[i]);
      if i != m {
        FreshSees(g1, m, i, g[i]);
      }
      Elects(c, g1, m, i, g[i]);
    }
    RoundEffect(c, g1, second, m);
    SameFirst(g1, g, m);
    forall i | 0 <= i < |group| ensures Loyal(g, m, i, g[i]) {
      SameLoyal(g1, g, m, i, g[i]);
    }
  }

  /** Everybody live is a member heard this round, so somebody is live and everybody live is capable. */
  lemma MembersAreCapable(c: Crypto, group: seq<State>, m: nat, s: State)
    requires |group| >= 2 && m < |group| && Midway(c, group, m, s) && AllFresh(group, m, s)
    ensures SomeLive(s.peers) && LiveAreCapable(s.peers)
  {
    var other := if m == 0 then 1 else 0;
    assert Heeds(group, s, other);
    assert SenderOf(s, group[other].mi) in s.peers;
    forall q | q in s.peers && q.live ensures q.capability != 0 {
      var j :| 0 <= j < |group| && group[j].mi == q.mi;
      FindUnique(s.peers, s.mi, q);
      assert j != m && Fresh(group, s, j);
    }
  }

  /** From mutual liveness to a secured group: two exchange rounds elect the first capable participant, it makes a key
      (it has none of its own, or wants another and 6 s are over), and three more rounds leave everybody holding exactly
      that key and secured. */
  lemma FromElectionToSecured(
    c: Crypto, group: seq<State>, m: nat, first: seq<seq<(nat, Env)>>, second: seq<seq<(nat, Env)>>, env: Env,
    third: seq<seq<(nat, Env)>>, fourth: seq<seq<(nat, Env)>>, fifth: seq<seq<(nat, Env)>>)
    requires c.Lawful() && Acquainted(c, group) && First(group, m) && SameSecrets(group) && MnRoom(group, 5) && |group| >= 2
    requires m < |group| && AllFull(|group|, first) && AllFull(|group|, second)
    requires AllFull(|group|, third) && AllFull(|group|, fourth) && AllFull(|group|, fifth)
    requires var g := Round(c, Round(c, group, first), second); var s := g[m];
      && (OwnsKey(s) ==> s.role.needNewSak && (s.lastSakTime.None? || env.now >= s.lastSakTime.value + 6_000_000_000))
      && (forall i | 0 <= i < |group| :: g[i].latest.ki != Some(KeyId(s.mi, s.nextKn)))
    ensures var g := Round(c, Round(c, group, first), second); var s := g[m];
      var r := Round(c, Round(c, Round(c, g[m := Step(c, s, MakeSak, env)], third), fourth), fifth);
      forall i | 0 <= i < |group| ::
        Secured(r[i]) && Holds(r[i], TheKey(KeyId(s.mi, s.nextKn), (s.latest.an + 1) % 4, env.freshSak))
  {
    hide Acquainted, Midway, AllFresh, Round, First, AllFull, MnRoom, Settled, Step, Inv, Secured, SameVote, SomeLive,
         LiveAreCapable, MustMake;
    RoomLess(group, 5, 2);
    TwoRoundsSettle(c, group, m, first, second);
    var g1 := Round(c, group, first);
    var g := Round(c, g1, second);
    var s := g[m];
    var r := Step(c, s, MakeSak, env);
    var k := TheKey(KeyId(s.mi, s.nextKn), (s.latest.an + 1) % 4, env.freshSak);
    SettledIs(c, g, m);
    MembersAreCapable(c, g1, m, s);
    ServerIs(g, m);
    MustMakeIs(s, env.now);
    GenerationExact(c, s, env);
    StepKeeps(c, s, MakeSak, env);
    MakeVote(c, s, env);
    MakingSettles(c, g, m, r);
    var h := g[m := r];
    VoteIds(s, r);
    RoomAfter(group, h, 2, 3);
    forall i | 0 <= i < |group| ensures Consistent(h[i], k) {
    }
    BringUp(c, h, m, k, third, fourth, fifth);
  }

  lemma ServerIs(g: seq<State>, m: nat)
    requires m < |g| && Loyal(g, m, m, g[m])
    ensures g[m].role.isKeyServer
  {
  }

  lemma MakeVote(c: Crypto, s: State, env: Env)
    ensures SameVote(s, Step(c, s, MakeSak, env))
  {
    EnsureVote(c, s, env);
  }

  lemma RoomAfter(group: seq<State>, h: seq<State>, n: nat, m: nat)
    requires MnRoom(group, n + m) && |h| == |group| && forall i | 0 <= i < |group| :: h[i].mn == group[i].mn + n
    ensures MnRoom(h, m)
  {
  }
}
