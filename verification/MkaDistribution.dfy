/** A pending key reaches every live member that takes the MKPDU carrying it, however late. */
module MkaDistribution {
  import opened Wire
  import opened Mkpdu
  import opened Mka
  import opened MkaInvariant
  import opened MkaRuns
  import opened MkaElection
  import opened MkaExact
  import opened MkaNetwork
  import MkpduRoundTrip

  /** A good packet from another individual address is handled as the MKPDU that was sent. */
  lemma DeliverTaken(c: Crypto, s: State, q: Packet, env: Env)
    requires c.Lawful() && MkpduRoundTrip.Encodable(q.pdu) && q.src / 0x100_0000_0000 % 2 == 0 && q.src != s.cfg.mac
    ensures MkaNetwork.After(c, s, Deliver(0, q), env) == HandlePdu(c, s, q.pdu, env)
  {
    var da, sa := BE(6, PAE_GROUP_ADDR), BE(6, q.src);
    MkpduRoundTrip.RoundTrip(c, q.pdu, da, sa, s.cfg.ick, []);
    var b := Octets(c, q, s.cfg.ick);
    assert b + [] == b;
    BuiltIsMka(c, q.pdu, da, sa, s.cfg.ick);
    hide Parse, Build, HandlePdu, BE;
  }

  lemma BuiltIsMka(c: Crypto, p: Mkpdu, da: bytes, sa: bytes, ick: bytes)
    ensures var r := Build(c, p, da, sa, ick); r.Ok? ==> |r.value| >= 4 && r.value[1] == EAPOL_TYPE_MKA
  {
    hide BodyBytes, ComputeIcv, BE;
  }

  lemma RunLength(c: Crypto, run: seq<Net>, actions: seq<(Action, Env)>)
    requires IsRun(c, run, actions)
    ensures |run| == |actions| + 1
  {
  }

  /** Issued keys stay as they were issued. */
  lemma {:induction false} IssuedStays(c: Crypto, run: seq<Net>, actions: seq<(Action, Env)>, t: nat, u: nat, k: KeyId)
    requires c.Lawful() && IsRun(c, run, actions) && t <= u < |run| && k in run[t].issued
    ensures k in run[u].issued && run[u].issued[k] == run[t].issued[k]
    decreases u - t
  {
    hide IsRun, NetInv, Enabled, Next, Grows;
    RunLength(c, run, actions);
    if t < u {
      IssuedStays(c, run, actions, t, u - 1, k);
      RunGood(c, run, actions, u - 1);
      RunStep(c, run, actions, u - 1);
      var (a, env) := actions[u - 1];
      EventEffect(c, run[u - 1], a, env);
      KeepGrows(c, run[u - 1], a, env);
      GrowsHas(run[u - 1], run[u], k);
    }
  }

  lemma GrowsHas(n: Net, n': Net, k: KeyId)
    requires Grows(n, n') && k in n.issued
    ensures k in n'.issued && n'.issued[k] == n.issued[k]
  {
  }

  /** What a key server's pending Distributed SAK carries. */
  lemma PendingCarries(c: Crypto, n: Net, srv: State)
    requires c.Lawful() && Inv(c, srv) && HoldsIssued(n, srv) && srv.role.distSak.Some?
    ensures srv.latest.ki.Some? && srv.sak.Some? && srv.role.isKeyServer
    ensures var d, k := srv.role.distSak.value, srv.latest.ki.value;
      && k == KeyId(srv.mi, d.kn) && k in n.issued && n.issued[k] == Issue(srv.sak.value, srv.latest.an)
      && d.an == srv.latest.an && d.confidentialityOffset == (if srv.cfg.encrypt then 1 else 0) && d.cipherSuite == None
      && d.wrappedSak != [] && |srv.sak.value| == 16
  {
  }

  /** In every run: an MKPDU that a key server sent with a key pending, taken at any later time by a member that then
      counts that key server as live and elected and is configured to protect alike, leaves the member with exactly the
      key, SAK and association number the key server had when it sent it. */
  lemma DistributionReaches(c: Crypto, run: seq<Net>, actions: seq<(Action, Env)>, t: nat, u: nat, k: nat, i: nat)
    requires c.Lawful() && IsRun(c, run, actions) && t < u < |actions| && k < |run[t].parts| && i < |run[u].parts|
    requires actions[t].0 == Emit(k) && run[t].parts[k].role.distSak.Some?
    requires var srv, s := run[t].parts[k], run[u].parts[i]; var p := Pdu(srv);
      && actions[u].0 == Deliver(i, Packet(srv.cfg.mac, p))
      && srv.cfg.mac / 0x100_0000_0000 % 2 == 0 && srv.cfg.mac != s.cfg.mac && s.cfg.encrypt == srv.cfg.encrypt
      && ForUs(s, p.basic) && !ClaimsOurs(s, p)
    requires i < |run[u + 1].parts|
    requires var srv, r := run[t].parts[k], run[u + 1].parts[i];
      !r.role.isKeyServer && HasRecord(r, srv.mi) && SenderOf(r, srv.mi).live && r.role.serverSci == Sci(srv)
    ensures var srv, r := run[t].parts[k], run[u + 1].parts[i];
      r.latest.ki == srv.latest.ki && r.latest.an == srv.latest.an && r.sak == srv.sak && r.latest.rx
  {
    hide IsRun, Inv, Pdu, HandlePdu, MkaNetwork.After, ForUs, ClaimsOurs, FindPeer, Next;
    RunLength(c, run, actions);
    var srv, s, r := run[t].parts[k], run[u].parts[i], run[u + 1].parts[i];
    var p := Pdu(srv);
    RunGood(c, run, actions, t);
    RunGood(c, run, actions, u);
    RunGood(c, run, actions, u + 1);
    RunStep(c, run, actions, u);
    assert HoldsIssued(run[t], srv) && HoldsIssued(run[u + 1], r) && Inv(c, srv) && Inv(c, s) && Inv(c, r);
    var q := actions[u].0.packet;
    assert PacketGood(c, run[u], s.cfg.kek, q);
    hide NetInv, Enabled, PacketGood;
    PendingCarries(c, run[t], srv);
    var key := srv.latest.ki.value;
    IssuedStays(c, run, actions, t, u, key);
    IssuedStays(c, run, actions, u, u + 1, key);
    PacketCarries(c, run[u], s.cfg.kek, q);
    ActorMoves(c, run[u], actions[u].0, actions[u].1);
    DeliverSame(c, s, i, q, actions[u].1);
    DeliverTaken(c, s, q, actions[u].1);
    PduIs(srv);
    NonzeroOwnSci(srv);
    AdoptionExact(c, s, p, actions[u].1);
    SenderExact(c, s, p, actions[u].1);
    MemberGenerates(c, s, p, actions[u].1);
    RxWithKey(c, r);
  }

  lemma PacketCarries(c: Crypto, n: Net, kek: bytes, q: Packet)
    requires PacketGood(c, n, kek, q)
    ensures MkpduRoundTrip.Encodable(q.pdu)
    ensures q.pdu.distSak.Some? ==>
      var k := KeyId(q.pdu.basic.mi, q.pdu.distSak.value.kn);
      k in n.issued && c.unwrap(kek, q.pdu.distSak.value.wrappedSak) == Some(n.issued[k].sak)
  {
    hide MkpduRoundTrip.Encodable;
  }

  lemma ActorMoves(c: Crypto, n: Net, a: Action, env: Env)
    requires Enabled(c, n, a, env)
    ensures a.who < |n.parts| && |Next(c, n, a, env).parts| == |n.parts|
    ensures Next(c, n, a, env).parts[a.who] == MkaNetwork.After(c, n.parts[a.who], a, env)
  {
    hide MkaNetwork.After;
  }

  lemma DeliverSame(c: Crypto, s: State, i: nat, q: Packet, env: Env)
    ensures MkaNetwork.After(c, s, Deliver(i, q), env) == MkaNetwork.After(c, s, Deliver(0, q), env)
  {
    hide HandleFrame;
  }

  lemma NonzeroOwnSci(s: State)
    ensures Sci(s) != 0
  {
  }

  lemma MemberGenerates(c: Crypto, s: State, p: Mkpdu, env: Env)
    requires Inv(c, s) && ForUs(s, p.basic) && !ClaimsOurs(s, p)
    ensures var r := HandlePdu(c, s, p, env); !r.role.isKeyServer ==> r.nextKn == s.nextKn
  {
    hide HandlePdu, Inv, ForUs, ClaimsOurs, SomeLive, LiveAreCapable, WantsRekey;
    GenerationOnPdu(c, s, p, env);
  }

  lemma RxWithKey(c: Crypto, s: State)
    requires Inv(c, s)
    ensures s.latest.ki.Some? ==> s.latest.rx
  {
  }
}
