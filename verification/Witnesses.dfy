/** The assumptions of the main theorems can be met: primitives with the assumed laws, and an acquainted group. */
module Witnesses {
  import opened Wire
  import Mkpdu
  import Mka
  import MkaInvariant
  import MkaRuns
  import MkaElection
  import Macsec
  import IkeSuite
  import IkeSa

  /** Primitives of the right sizes that decrypt what they encrypted. */
  function SamplePrimitives(): (c: IkeSa.Primitives) {
    IkeSa.Primitives(
      (a, key, data) => Zeros(IkeSuite.PrfLen(a)),
      (a, key, data) => Zeros(IkeSuite.IcvLen(a)),
      (e, key, iv, plain, aad) => Ok(if IkeSuite.IsAead(e) then plain + Zeros(16) else plain),
      (e, key, iv, cipher, aad) =>
        Ok(if IkeSuite.IsAead(e) && |cipher| >= 16 then cipher[..|cipher| - 16] else cipher))
  }

  lemma PrimitivesAreLawful()
    ensures IkeSa.Lawful(SamplePrimitives())
  {
    forall plain: bytes ensures (plain + Zeros(16))[..|plain + Zeros(16)| - 16] == plain {
    }
  }

  /** A tag of 16 octets and a wrap that prepends eight. */
  function SampleCrypto(): (c: Mkpdu.Crypto) {
    Mkpdu.Crypto((key, data) => Zeros(16), (key, sak) => Zeros(8) + sak,
                 (key, wrapped) => if |wrapped| < 8 then None else Some(wrapped[8..]))
  }

  lemma CryptoIsLawful()
    ensures SampleCrypto().Lawful()
  {
    forall sak: bytes ensures (Zeros(8) + sak)[8..] == sak {
    }
  }

  function SamplePeer(mi: Mkpdu.Mi, mac: Mka.Mac, keyServer: bool): (p: Mka.Peer) {
    Mka.Peer(mi, 1, Mka.ActorSci(mac), 16, keyServer, true, 2, true, 0, false, false)
  }

  function SampleState(mi: Mkpdu.Mi, mac: Mka.Mac, capable: bool, peer: Mka.Peer): (s: Mka.State) {
    var none := Mka.KeyUse(None, 0, false, false);
    Mka.State(Mka.Config(mac, [1], [], [], 16, capable, true), mi, 2, [peer],
              Mka.Role(capable, 0, None, true, false), none, none, None, 1, None, Macsec.Desired([], []))
  }

  /** A capable participant and one that is not, mutually live. */
  function SampleGroup(): (group: seq<Mka.State>) {
    [SampleState(1, 1, true, SamplePeer(2, 2, false)), SampleState(2, 2, false, SamplePeer(1, 1, true))]
  }

  lemma GroupIsAcquainted(c: Mkpdu.Crypto)
    ensures MkaElection.Acquainted(c, SampleGroup()) && MkaElection.MnRoom(SampleGroup(), 2)
    ensures MkaElection.First(SampleGroup(), 0)
  {
    var group := SampleGroup();
    assert Mka.FindPeer(group[0].peers, 2) == 0 && Mka.FindPeer(group[1].peers, 1) == 0;
    assert MkaElection.Knows(group[0], group[1]) && MkaElection.Knows(group[1], group[0]);
    forall i | 0 <= i < 2 ensures MkaInvariant.Inv(c, group[i]) && MkaElection.OnlyMembers(group, group[i]) {
      assert forall p | p in group[i].peers :: p == group[i].peers[0];
      assert group[1 - i].mi == group[i].peers[0].mi;
    }
  }
}
