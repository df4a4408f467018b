/** One MKA participant as a value, and its steps (src/wired/mka.rs, IEEE 802.1X-2020 clause 9). */
module Mka {
  import opened Wire
  import opened Mkpdu
  import Macsec

  const MKA_VERSION: u8 := 3
  const ALGO_AGILITY: u32 := 0x0080_c201
  const CAP_NOT_IMPLEMENTED: u8 := 0
  const CAP_INTEGRITY_CONFIDENTIALITY: u8 := 2
  const PN_EXHAUSTION: u32 := 0xC000_0000
  const CS_ID_GCM_AES_128: u64 := 0x0080_0200_0100_0001
  /** MKA Life Time, in nanoseconds. */
  const LIFE: nat := 6_000_000_000

  type Mac = x: int | 0 <= x < 0x1_0000_0000_0000
  type Sak = b: bytes | |b| == 16 witness [0, 0, 0, 0, 0, 0, 0, 0, 0, 0, 0, 0, 0, 0, 0, 0]

  datatype Peer = Peer(
    mi: Mi, mn: u32, sci: u64, priority: u8, keyServer: bool, macsecDesired: bool, capability: u8,
    live: bool, lastSeen: nat, rxReady: bool, rxInstalled: bool)

  datatype Config = Config(
    mac: Mac, ckn: bytes, kek: bytes, ick: bytes, priority: u8, canBeKeyServer: bool, encrypt: bool)

  /** A key in use: its identifier, association number and directions. */
  datatype KeyUse = KeyUse(ki: Option<KeyId>, an: u8, tx: bool, rx: bool)

  /** The outcome of the election, and what is pending because of it. */
  datatype Role = Role(
    isKeyServer: bool, serverSci: u64, distSak: Option<DistSak>, needSend: bool, needNewSak: bool)

  datatype State = State(
    cfg: Config, mi: Mi, mn: u32, peers: seq<Peer>, role: Role, latest: KeyUse, prior: KeyUse,
    sak: Option<bytes>, nextKn: u32, lastSakTime: Option<nat>, dev: Macsec.Desired)

  /** What a step reads from outside: the clock and the random generator. */
  datatype Env = Env(now: nat, freshMi: Mi, freshSak: Sak)

  function ActorSci(mac: Mac): (sci: u64) { 65536 * mac + 1 }

  /** `wrapping_add(1).max(1)` on 32 bits. */
  function NextCounter(n: u32): (r: u32) { if n == 0xffff_ffff then 1 else n + 1 }

  // -------------------------------------------------------------- election

  datatype Candidate = Candidate(priority: u8, sci: u64, own: bool)

  predicate Better(a: Candidate, b: Candidate) {
    a.priority < b.priority || (a.priority == b.priority && a.sci < b.sci)
  }

  function BestOf(best: Option<Candidate>, peers: seq<Peer>): (r: Option<Candidate>) {
    if peers == [] then best
    else
      var b, p := BestOf(best, peers[..|peers| - 1]), peers[|peers| - 1];
      var c := Candidate(p.priority, p.sci, false);
      if p.live && p.keyServer && (b.None? || Better(c, b.value)) then Some(c) else b
  }

  function OwnCandidate(cfg: Config): (r: Option<Candidate>) {
    if cfg.canBeKeyServer then Some(Candidate(cfg.priority, ActorSci(cfg.mac), true)) else None
  }

  function Elected(role: Role, won: bool, sci: u64): (r: Role) {
    if won == role.isKeyServer then role.(serverSci := sci)
    else if won then Role(true, sci, role.distSak, true, true)
    else Role(false, sci, None, true, false)
  }

  function Elect(s: State): (r: State)
    ensures r.peers == s.peers
  {
    var best := BestOf(OwnCandidate(s.cfg), s.peers);
    var won := best.Some? && best.value.own;
    var sci := if best.Some? then best.value.sci else 0;
    s.(role := Elected(s.role, won, sci))
  }

  predicate IsElected(s: State, sci: u64) {
    s.role.serverSci != 0 && sci == s.role.serverSci
  }

  // ----------------------------------------------------------------- peers

  predicate HasPeer(peers: seq<Peer>, mi: Mi) { exists p | p in peers :: p.mi == mi }

  predicate HasLivePeer(peers: seq<Peer>) { exists p | p in peers :: p.live }

  predicate AllReady(peers: seq<Peer>) { forall p | p in peers :: p.live ==> p.rxReady }

  predicate PeersSupportMacsec(peers: seq<Peer>) {
    forall p | p in peers :: p.live ==> p.capability != CAP_NOT_IMPLEMENTED
  }

  function FindPeer(peers: seq<Peer>, mi: Mi): (i: nat)
    ensures i <= |peers|
    ensures i < |peers| ==> peers[i].mi == mi
    ensures forall j | 0 <= j < i :: peers[j].mi != mi
  {
    if peers == [] || peers[0].mi == mi then 0 else 1 + FindPeer(peers[1..], mi)
  }

  /** SCIs of the live peers that advertised one and satisfy `rx_installed == installed` when asked. */
  function Scis(peers: seq<Peer>, pendingOnly: bool): (scis: seq<u64>) {
    if peers == [] then []
    else
      var p := peers[|peers| - 1];
      Scis(peers[..|peers| - 1], pendingOnly)
      + (if p.live && p.sci != 0 && !(pendingOnly && p.rxInstalled) then [p.sci] else [])
  }

  function InstallRxAll(dev: Macsec.Desired, scis: seq<u64>, an: u8, ki: KeyId, sak: bytes): (r: Macsec.Desired) {
    if scis == [] then dev
    else
      Macsec.InstallRx(InstallRxAll(dev, scis[..|scis| - 1], an, ki, sak), scis[|scis| - 1], an, ki, sak).desired
  }

  /** Marks the RX SA of every peer whose SCI is listed, live peers only when `liveOnly`. */
  function MarkInstalled(peers: seq<Peer>, scis: seq<u64>, liveOnly: bool): (r: seq<Peer>)
    ensures |r| == |peers|
  {
    seq(|peers|, i requires 0 <= i < |peers| =>
      if (liveOnly ==> peers[i].live) && peers[i].sci in scis then peers[i].(rxInstalled := true) else peers[i])
  }

  function ResetRx(peers: seq<Peer>, installed: bool): (r: seq<Peer>)
    ensures |r| == |peers|
  {
    seq(|peers|, i requires 0 <= i < |peers| =>
      peers[i].(rxReady := false, rxInstalled := if installed then false else peers[i].rxInstalled))
  }

  // ---------------------------------------------------------------- resets

  /** `reset_mi` followed by `need_send = true`, as both callers do. */
  function ResetMi(s: State, mi: Mi): (r: State) {
    s.(mi := mi, mn := 1, peers := [], role := Role(s.cfg.canBeKeyServer, 0, None, true, false),
       latest := KeyUse(None, s.latest.an, false, false), prior := s.prior.(ki := None),
       sak := None, lastSakTime := None)
  }

  /** Raises the send and rekey requests that hold. */
  function Wanting(role: Role, send: bool, rekey: bool): (r: Role) {
    role.(needSend := role.needSend || send, needNewSak := role.needNewSak || rekey)
  }

  function Alive(peers: seq<Peer>, now: nat): (r: seq<Peer>)
    ensures |r| <= |peers|
    ensures forall p | p in r :: p in peers
  {
    if peers == [] then []
    else
      var p := peers[|peers| - 1];
      Alive(peers[..|peers| - 1], now) + (if now < p.lastSeen + LIFE then [p] else [])
  }

  /** `expire_peers`: forget peers silent for MKA Life Time. */
  function Expire(s: State, now: nat): (r: State) {
    var kept := Alive(s.peers, now);
    if |kept| == |s.peers| then s
    else
      var rekey := s.role.isKeyServer && s.latest.ki.Some? && HasLivePeer(kept);
      Elect(s.(peers := kept, role := Wanting(s.role, true, rekey)))
  }

  /** SCIs of the peers `Expire` forgets. */
  function ExpiredScis(peers: seq<Peer>, now: nat): (scis: seq<u64>) {
    if peers == [] then []
    else
      var p := peers[|peers| - 1];
      ExpiredScis(peers[..|peers| - 1], now) + (if now >= p.lastSeen + LIFE && p.sci != 0 then [p.sci] else [])
  }

  function RemoveRxAll(dev: Macsec.Desired, scis: seq<u64>): (r: Macsec.Desired) {
    if scis == [] then dev else Macsec.RemoveRx(RemoveRxAll(dev, scis[..|scis| - 1]), scis[|scis| - 1]).desired
  }

  /** `drop_unsecure_sak`: without a live peer there is no association left. */
  function DropUnsecure(s: State): (r: State) {
    if s.latest.ki.None? || HasLivePeer(s.peers) then s
    else
      var none := KeyUse(None, 0, false, false);
      s.(dev := Macsec.Clear().desired, latest := none, prior := none, sak := None, lastSakTime := None,
         peers := ResetRx(s.peers, false), role := s.role.(distSak := None, needNewSak := false, needSend := true))
  }

  // ------------------------------------------------------------------ keys

  predicate OwnsKey(s: State) { s.latest.ki.Some? && s.latest.ki.value.mi == s.mi }

  /** Whether `ensure_sak` generates a key now. */
  predicate MustGenerate(s: State, now: nat) {
    && s.role.isKeyServer && HasLivePeer(s.peers) && PeersSupportMacsec(s.peers)
    && (OwnsKey(s) ==> s.role.needNewSak && (s.lastSakTime.Some? ==> now >= s.lastSakTime.value + LIFE))
  }

  /** A key becomes the latest one; the previous latest becomes the old one. */
  function Rotate(s: State, ki: KeyId, an: u8, sak: bytes): (r: State) {
    s.(prior := s.latest, latest := KeyUse(Some(ki), an, false, true), sak := Some(sak))
  }

  function Distributed(c: Crypto, s: State, an: u8, sak: bytes): (d: DistSak) {
    DistSak(an, if s.cfg.encrypt then 1 else 0, s.nextKn, None, c.wrap(s.cfg.kek, sak))
  }

  function Generate(c: Crypto, s: State, env: Env): (r: State) {
    var an: u8 := (s.latest.an + 1) % 4;
    var ki := KeyId(s.mi, s.nextKn);
    var peers := ResetRx(s.peers, true);
    var scis := Scis(peers, false);
    var dev := Macsec.InstallTx(s.dev, an, ki, env.freshSak, false).desired;
    Rotate(s, ki, an, env.freshSak).(
      nextKn := NextCounter(s.nextKn), lastSakTime := Some(env.now),
      role := s.role.(needNewSak := false, needSend := true, distSak := Some(Distributed(c, s, an, env.freshSak))),
      dev := InstallRxAll(dev, scis, an, ki, env.freshSak),
      peers := MarkInstalled(peers, scis, true))
  }

  function EnsureSak(c: Crypto, s: State, env: Env): (r: State) {
    if MustGenerate(s, env.now) then Generate(c, s, env) else s
  }

  /** `install_rx_sas_for_live_peers`. */
  function InstallPending(s: State): (r: State) {
    var pending := Scis(s.peers, true);
    if s.latest.ki.None? || s.sak.None? || pending == [] then s
    else
      s.(dev := InstallRxAll(s.dev, pending, s.latest.an, s.latest.ki.value, s.sak.value),
         peers := MarkInstalled(s.peers, pending, false))
  }

  predicate DistSakSupported(encrypt: bool, d: DistSak) {
    && d.confidentialityOffset <= 1
    && encrypt == (d.confidentialityOffset == 1)
    && (d.cipherSuite.Some? ==> d.cipherSuite.value == CS_ID_GCM_AES_128)
  }

  // ---------------------------------------------------------------- frames

  function Recorded(p: Peer, b: Basic, now: nat): (r: Peer) {
    p.(mn := b.mn, sci := b.sci, priority := b.priority, keyServer := b.keyServer,
       macsecDesired := b.macsecDesired, capability := b.capability, lastSeen := now)
  }

  function NewPeer(b: Basic, now: nat): (r: Peer) {
    Peer(b.mi, 0, b.sci, b.priority, b.keyServer, b.macsecDesired, b.capability, false, now, false, false)
  }

  function PeerChanged(p: Peer, b: Basic): (r: bool) {
    p.mn != b.mn || p.sci != b.sci || p.priority != b.priority || p.keyServer != b.keyServer
    || p.macsecDesired != b.macsecDesired || p.capability != b.capability || !p.live
  }

  /** The sender's record is created if need be and brought up to date. */
  function Record(s: State, b: Basic, now: nat): (r: State)
    ensures FindPeer(s.peers, b.mi) < |r.peers|
  {
    var i := FindPeer(s.peers, b.mi);
    var peers := if i < |s.peers| then s.peers else s.peers + [NewPeer(b, now)];
    s.(peers := peers[i := Recorded(peers[i], b, now)],
       role := Wanting(s.role, PeerChanged(peers[i], b), false))
  }

  function Listed(p: Mkpdu): (ids: seq<PeerId>) { p.livePeers + p.potentialPeers }

  /** Our MI was used with an MN not sent yet. */
  predicate Collides(s: State, p: Mkpdu) {
    exists id | id in Listed(p) :: id.mi == s.mi && id.mn >= s.mn
  }

  /** One of the last two MNs sent; `own` is the next one. */
  predicate MnIsRecent(own: u32, mn: u32) {
    mn == (own - 1) % 0x1_0000_0000 || mn == (own - 2) % 0x1_0000_0000
  }

  predicate KnowsUs(s: State, p: Mkpdu) {
    exists id | id in Listed(p) :: id.mi == s.mi && MnIsRecent(s.mn, id.mn)
  }

  function MarkLive(s: State, i: nat, p: Mkpdu, now: nat): (r: State)
    requires i < |s.peers|
    ensures |r.peers| == |s.peers|
  {
    if KnowsUs(s, p) && !s.peers[i].live then
      s.(peers := s.peers[i := s.peers[i].(live := true, lastSeen := now)],
         role := Wanting(s.role, true, s.role.isKeyServer && s.latest.ki.Some?))
    else s
  }

  /** Peers named by a live peer become potential peers. */
  function Learn(peers: seq<Peer>, own: Mi, ids: seq<PeerId>, now: nat): (r: seq<Peer>)
    ensures |peers| <= |r| && r[..|peers|] == peers
  {
    if ids == [] then peers
    else
      var r, id := Learn(peers, own, ids[..|ids| - 1], now), ids[|ids| - 1];
      if id.mi == own || HasPeer(r, id.mi) then r
      else r + [Peer(id.mi, id.mn, 0, 0xff, false, false, CAP_NOT_IMPLEMENTED, false, now, false, false)]
  }

  function LearnPeers(s: State, i: nat, p: Mkpdu, now: nat): (r: State)
    requires i < |s.peers|
    ensures |s.peers| <= |r.peers| && r.peers[..|s.peers|] == s.peers
  {
    if s.peers[i].live then
      var peers := Learn(s.peers, s.mi, p.livePeers, now);
      s.(peers := peers, role := Wanting(s.role, |peers| > |s.peers|, false))
    else s
  }

  /** Turns on transmission with the latest key. */
  function Transmit(s: State): (r: State)
    ensures r.peers == s.peers
  {
    s.(latest := s.latest.(tx := true), dev := Macsec.ActivateTx(s.dev, s.latest.an).desired,
       role := s.role.(needSend := true))
  }

  /** Reaction of a key server to a live peer's SAK Use. */
  function ServerUse(s: State, i: nat, u: SakUse): (r: State)
    requires i < |s.peers|
    ensures |r.peers| == |s.peers|
  {
    var peers := s.peers[i := s.peers[i].(rxReady := u.latestRx)];
    var role := Wanting(s.role, false, u.latestLlpn >= PN_EXHAUSTION);
    if !AllReady(peers) then s.(peers := peers, role := role)
    else if s.latest.tx then s.(peers := peers, role := role.(distSak := None))
    else Transmit(s).(peers := peers, role := role.(distSak := None, needSend := true))
  }

  function UseSak(s: State, i: nat, use: Option<SakUse>): (r: State)
    requires i < |s.peers|
    ensures |r.peers| == |s.peers|
  {
    if use.None? || s.latest.ki != Some(use.value.latestKi) then s
    else if s.role.isKeyServer && s.peers[i].live then ServerUse(s, i, use.value)
    else if
      !s.role.isKeyServer && s.peers[i].keyServer && IsElected(s, s.peers[i].sci) && use.value.latestTx && !s.latest.tx
    then Transmit(s)
    else s
  }

  /** Whether a Distributed SAK from peer `i` is addressed to us. */
  predicate Distributes(s: State, i: nat, dist: Option<DistSak>)
    requires i < |s.peers|
  {
    && dist.Some? && s.peers[i].live && s.peers[i].keyServer && IsElected(s, s.peers[i].sci)
    && !s.role.isKeyServer && dist.value.wrappedSak != []
  }

  function Adopt(s: State, i: nat, d: DistSak, sak: bytes): (r: State)
    requires i < |s.peers|
  {
    var ki := KeyId(s.peers[i].mi, d.kn);
    var live := Scis(s.peers, false);
    var scis := if s.peers[i].sci in live then live else live + [s.peers[i].sci];
    var dev := InstallRxAll(s.dev, scis, d.an, ki, sak);
    Rotate(s, ki, d.an, sak).(
      dev := Macsec.InstallTx(dev, d.an, ki, sak, false).desired,
      peers := MarkInstalled(s.peers, scis, true), role := s.role.(needSend := true))
  }

  /** What becomes of the Distributed SAK; `None` when the frame is abandoned. */
  function TakeSak(c: Crypto, s: State, i: nat, dist: Option<DistSak>): (r: Option<State>)
    requires i < |s.peers|
  {
    if !Distributes(s, i, dist) then Some(s)
    else if !DistSakSupported(s.cfg.encrypt, dist.value) then None
    else if s.latest.ki == Some(KeyId(s.peers[i].mi, dist.value.kn)) then Some(s)
    else
      var sak := c.unwrap(s.cfg.kek, dist.value.wrappedSak);
      if sak.None? || |sak.value| != 16 then None else Some(Adopt(s, i, dist.value, sak.value))
  }

  /** Liveness, potential peers and the election, in this order. */
  function Hear(s: State, i: nat, p: Mkpdu, now: nat): (r: State)
    requires i < |s.peers|
    ensures |s.peers| <= |r.peers|
  {
    Elect(LearnPeers(MarkLive(s, i, p, now), i, p, now))
  }

  /** A frame from a recorded sender, after the collision test. */
  function Process(c: Crypto, s: State, i: nat, p: Mkpdu, env: Env): (r: State)
    requires i < |s.peers|
  {
    var used := UseSak(Hear(s, i, p, env.now), i, p.sakUse);
    match TakeSak(c, used, i, p.distSak)
    case None => used
    case Some(taken) => InstallPending(EnsureSak(c, taken, env))
  }

  /** The frame is neither foreign, nor ours, nor stale. */
  predicate Accepts(s: State, b: Basic) {
    && b.ckn == s.cfg.ckn && b.mi != s.mi && b.version <= MKA_VERSION && b.algoAgility == ALGO_AGILITY
    && (var i := FindPeer(s.peers, b.mi); i < |s.peers| ==> s.peers[i].mn < b.mn)
  }

  function HandlePdu(c: Crypto, s: State, p: Mkpdu, env: Env): (r: State) {
    if p.basic.ckn == s.cfg.ckn && p.basic.mi == s.mi then ResetMi(s, env.freshMi)
    else if !Accepts(s, p.basic) then s
    else
      var known := Record(s, p.basic, env.now);
      if Collides(known, p) then ResetMi(known, env.freshMi)
      else Process(c, known, FindPeer(s.peers, p.basic.mi), p, env)
  }

  /** An Ethernet frame on the PAE group address. */
  datatype Frame = Frame(src: Mac, dst: Mac, payload: bytes)

  const PAE_GROUP_ADDR: Mac := 0x0180_c200_0003

  function HandleFrame(c: Crypto, s: State, f: Frame, env: Env): (r: State) {
    if |f.payload| < 4 || f.payload[1] != EAPOL_TYPE_MKA then s
    else if f.dst != PAE_GROUP_ADDR || f.src / 0x100_0000_0000 % 2 == 1 || f.src == s.cfg.mac then s
    else
      match Parse(c, f.payload, BE(6, f.dst), BE(6, f.src), s.cfg.ick)
      case Ok(Some(p)) => HandlePdu(c, s, p, env)
      case _ => s
  }

  // --------------------------------------------------------------- sending

  /** Stable insertion sort; `before` is a strict order. */
  function Insert(p: Peer, sorted: seq<Peer>, before: (Peer, Peer) -> bool): (r: seq<Peer>) {
    if sorted == [] || before(p, sorted[0]) then [p] + sorted
    else [sorted[0]] + Insert(p, sorted[1..], before)
  }

  function Sort(peers: seq<Peer>, before: (Peer, Peer) -> bool): (r: seq<Peer>) {
    if peers == [] then [] else Insert(peers[|peers| - 1], Sort(peers[..|peers| - 1], before), before)
  }

  function Select(peers: seq<Peer>, live: bool): (r: seq<Peer>)
    ensures |r| <= |peers|
  {
    if peers == [] then []
    else Select(peers[..|peers| - 1], live) + (if peers[|peers| - 1].live == live then [peers[|peers| - 1]] else [])
  }

  function Ids(peers: seq<Peer>): (r: seq<PeerId>)
    ensures |r| == |peers|
  {
    seq(|peers|, i requires 0 <= i < |peers| => PeerId(peers[i].mi, peers[i].mn))
  }

  predicate GreaterSci(a: Peer, b: Peer) { a.sci > b.sci || (a.sci == b.sci && a.mi > b.mi) }

  predicate GreaterMi(a: Peer, b: Peer) { a.mi > b.mi }

  function UseOf(s: State): (r: Option<SakUse>) {
    if s.latest.ki.None? then None
    else
      Some(SakUse(s.latest.an, s.latest.tx, s.latest.rx, s.prior.an, s.prior.tx, s.prior.rx, false, false, false,
                  s.latest.ki.value, 0, if s.prior.ki.Some? then s.prior.ki.value else KeyId(0, 0), 0))
  }

  /** The MKPDU this participant sends next. */
  function Pdu(s: State): (p: Mkpdu) {
    Mkpdu(Basic(MKA_VERSION, s.cfg.priority, s.role.isKeyServer, true, CAP_INTEGRITY_CONFIDENTIALITY,
                ActorSci(s.cfg.mac), s.mi, s.mn, ALGO_AGILITY, s.cfg.ckn),
          Ids(Sort(Select(s.peers, true), GreaterSci)), Ids(Sort(Select(s.peers, false), GreaterMi)),
          UseOf(s), if s.role.isKeyServer then s.role.distSak else None)
  }

  function Sent(s: State): (r: State) { s.(mn := NextCounter(s.mn), role := s.role.(needSend := false)) }

  predicate Secured(s: State) { s.latest.ki.Some? && s.latest.rx && s.latest.tx && HasLivePeer(s.peers) }

  /** A new session. */
  function Initial(cfg: Config, mi: Mi): (s: State) {
    var none := KeyUse(None, 0, false, false);
    Elect(State(cfg, mi, 1, [], Role(cfg.canBeKeyServer, 0, None, true, false), none, none, None, 1, None,
                Macsec.Desired([], [])))
  }

  /** Everything a participant does between looking at the socket twice. */
  datatype Event =
    | Receive(frame: Frame)
    | ExpirePeers(removeChannels: bool)
    | DropSak
    | MakeSak
    | Send

  function Step(c: Crypto, s: State, e: Event, env: Env): (r: State) {
    match e
    case Receive(f) => HandleFrame(c, s, f, env)
    case ExpirePeers(remove) =>
      var r := Expire(s, env.now);
      if remove then r.(dev := RemoveRxAll(r.dev, ExpiredScis(s.peers, env.now))) else r
    case DropSak => DropUnsecure(s)
    case MakeSak => EnsureSak(c, s, env)
    case Send => Sent(s)
  }
}
