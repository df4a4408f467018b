/** EAP packets (src/core/eap.rs, section 4 of RFC 3748). */
module Eap {
  import opened Wire

  const CODE_REQUEST: u8 := 1
  const CODE_RESPONSE: u8 := 2
  const CODE_SUCCESS: u8 := 3
  const CODE_FAILURE: u8 := 4
  const TYPE_IDENTITY: u8 := 1
  const TYPE_NOTIFICATION: u8 := 2
  const TYPE_NAK: u8 := 3
  const TYPE_TLS: u8 := 13

  datatype Packet = Packet(code: u8, identifier: u8, kind: Option<u8>, body: bytes)

  function KindBytes(kind: Option<u8>): (b: bytes) { if kind.Some? then [kind.value] else [] }

  function Build(p: Packet): (pdu: bytes) {
    var length := 4 + |KindBytes(p.kind)| + |p.body|;
    [p.code, p.identifier] + BE(2, length % 0x1_0000) + KindBytes(p.kind) + p.body
  }

  function Parse(pdu: bytes): (r: Option<Packet>) {
    if |pdu| < 4 then None
    else
      var length := Read16(pdu[2], pdu[3]);
      if length < 4 || length > |pdu| then None
      else if pdu[0] == CODE_SUCCESS || pdu[0] == CODE_FAILURE then
        if length != 4 then None else Some(Packet(pdu[0], pdu[1], None, []))
      else if pdu[0] == CODE_REQUEST || pdu[0] == CODE_RESPONSE then
        if length < 5 then None else Some(Packet(pdu[0], pdu[1], Some(pdu[4]), pdu[5..length]))
      else None
  }

  /** Success and Failure are bare; Requests and Responses carry a type; the length fits its field. */
  predicate WellFormed(p: Packet) {
    && (p.code == CODE_SUCCESS || p.code == CODE_FAILURE ==> p.kind.None? && p.body == [])
    && (p.code == CODE_REQUEST || p.code == CODE_RESPONSE ==> p.kind.Some?)
    && 1 <= p.code <= 4
    && 5 + |p.body| <= 0xffff
  }

  lemma Layout(a: bytes, n: bytes, kind: bytes, body: bytes, trail: bytes)
    requires |a| == 2 && |n| == 2
    ensures var pdu := a + n + kind + body + trail;
      && pdu[0] == a[0] && pdu[1] == a[1] && pdu[2] == n[0] && pdu[3] == n[1]
      && (|kind| == 1 ==> pdu[4] == kind[0] && pdu[5..5 + |body|] == body)
  {
  }

  lemma BuildLayout(p: Packet, trail: bytes)
    ensures var pdu := Build(p) + trail; var length := 4 + |KindBytes(p.kind)| + |p.body|;
      && |pdu| == length + |trail| && pdu[0] == p.code && pdu[1] == p.identifier
      && Read16(pdu[2], pdu[3]) == length % 0x1_0000
      && (p.kind.Some? ==> pdu[4] == p.kind.value && pdu[5..length] == p.body)
  {
    hide BE, Read16;
    var n: u16 := (4 + |KindBytes(p.kind)| + |p.body|) % 0x1_0000;
    Read16OfBE(n);
    Layout([p.code, p.identifier], BE(2, n), KindBytes(p.kind), p.body, trail);
  }

  /** Parsing a built packet followed by anything gives the packet back exactly when it is well formed. */
  lemma PacketRoundTrip(p: Packet, trail: bytes)
    ensures Parse(Build(p) + trail) == Some(p) <==> WellFormed(p)
  {
    hide Build;
    BuildLayout(p, trail);
  }

  /** Octets parse as exactly the packet whose well-formed encoding they start with. */
  lemma ParseExact(pdu: bytes, p: Packet)
    ensures Parse(pdu) == Some(p) <==> WellFormed(p) && Build(p) <= pdu
  {
    if WellFormed(p) && Build(p) <= pdu {
      var trail := pdu[|Build(p)|..];
      assert pdu == Build(p) + trail;
      hide Build, Parse;
      PacketRoundTrip(p, trail);
    } else if Parse(pdu) == Some(p) {
      ParsedIsBuilt(pdu, p);
    }
  }

  lemma LengthOctets(hi: u8, lo: u8)
    ensures BE(2, Read16(hi, lo)) == [hi, lo]
  {
    var v := Read16(hi, lo);
    assert BE(2, v) == BE(1, v / 256) + [v % 256];
    assert BE(1, v / 256) == BE(0, v / 65536) + [v / 256 % 256];
  }

  lemma ParsedIsBuilt(pdu: bytes, p: Packet)
    requires Parse(pdu) == Some(p)
    ensures WellFormed(p) && Build(p) <= pdu
  {
    hide BE, Read16;
    LengthOctets(pdu[2], pdu[3]);
    Reassembled(pdu, if p.kind.Some? then 5 else 4, Read16(pdu[2], pdu[3]));
  }

  lemma Reassembled(pdu: bytes, k: nat, n: nat)
    requires 4 <= k <= n <= |pdu|
    ensures [pdu[0], pdu[1]] + [pdu[2], pdu[3]] + pdu[4..k] + pdu[k..n] <= pdu
    ensures k == 5 ==> pdu[4..5] == [pdu[4]]
    ensures k == 4 ==> pdu[4..4] == []
  {
    assert pdu[..n] == [pdu[0], pdu[1]] + [pdu[2], pdu[3]] + pdu[4..k] + pdu[k..n];
  }
}
