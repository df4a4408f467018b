/** Proposal negotiation (src/ipsec/ikev2/proposal.rs and the transform builders of codec.rs; section 2.7
    of RFC 7296). */
module IkeProposals {
  import opened Wire
  import opened IkeCodec
  import opened IkeRoundTrip
  import opened IkeSuite

  const PROTO_IKE: u8 := 1
  const PROTO_ESP: u8 := 3
  const ENCR: u8 := 1
  const PRF: u8 := 2
  const INTEG: u8 := 3
  const DH: u8 := 4
  const ESN: u8 := 5

  datatype IkeProposal = IkeProposal(encryption: Encryption, prf: Prf, integrity: Integrity, dh: Dh)
  datatype ChildProposal = ChildProposal(encryption: Encryption, integrity: Integrity, esn: bool, dh: Dh)

  /** AEAD ciphers carry their own integrity, the others need an integrity transform. */
  predicate ValidPair(e: Encryption, i: Integrity) { IsAead(e) == i.NoIntegrity? }

  // ---------------------------------------------------------------- building

  function Plain(kind: u8, id: u16): (t: Transform) { Transform(kind, id, []) }

  function EncrTransform(e: Encryption): (t: Transform) {
    Transform(ENCR, EncryptionId(e), [Attribute(14, W16(KeyBits(e)))])
  }

  function Optional(use: bool, t: Transform): (ts: seq<Transform>) { if use then [t] else [] }

  function IkeTransforms(p: IkeProposal): (ts: seq<Transform>) {
    [EncrTransform(p.encryption), Plain(PRF, PrfId(p.prf))]
    + Optional(!p.integrity.NoIntegrity?, Plain(INTEG, IntegrityId(p.integrity)))
    + Optional(!p.dh.NoDh?, Plain(DH, DhId(p.dh)))
  }

  function EspTransforms(p: ChildProposal): (ts: seq<Transform>) {
    [EncrTransform(p.encryption)]
    + Optional(!p.integrity.NoIntegrity?, Plain(INTEG, IntegrityId(p.integrity)))
    + [Plain(ESN, if p.esn then 1 else 0)]
    + Optional(!p.dh.NoDh?, Plain(DH, DhId(p.dh)))
  }

  function BuildIke(ps: seq<IkeProposal>): (r: seq<Proposal>)
    ensures |r| == |ps|
  {
    seq(|ps|, i requires 0 <= i < |ps| => Proposal((i + 1) % 256, PROTO_IKE, [], IkeTransforms(ps[i])))
  }

  /** The suite without its group, as IKE_AUTH negotiates it. */
  function Strip(p: ChildProposal): (r: ChildProposal) { p.(dh := NoDh) }

  function Grouped(p: ChildProposal, includeDh: bool): (r: ChildProposal) { if includeDh then p else Strip(p) }

  function BuildEsp(ps: seq<ChildProposal>, spi: u32, includeDh: bool): (r: seq<Proposal>)
    ensures |r| == |ps|
  {
    seq(|ps|, i requires 0 <= i < |ps| =>
      Proposal((i + 1) % 256, PROTO_ESP, BE(4, spi), EspTransforms(Grouped(ps[i], includeDh))))
  }

  // --------------------------------------------------------------- selecting

  function KeyLengthBits(a: Attribute): (r: Option<u16>) {
    if a.kind == 14 && |a.value| == 2 then Some(Read16(a.value[0], a.value[1])) else None
  }

  function FindBits(attributes: seq<Attribute>): (r: Option<u16>) {
    if attributes == [] then None
    else if KeyLengthBits(attributes[0]).Some? then KeyLengthBits(attributes[0])
    else FindBits(attributes[1..])
  }

  predicate Offers(ts: seq<Transform>, kind: u8, id: u16) { exists t | t in ts :: t.kind == kind && t.id == id }

  predicate OffersCipher(ts: seq<Transform>, e: Encryption) {
    exists t | t in ts :: t.kind == ENCR && t.id == EncryptionId(e) && FindBits(t.attributes) == Some(KeyBits(e))
  }

  /** `transform_offer_matches`. */
  predicate OfferMatches(ts: seq<Transform>, e: Encryption, prf: Option<Prf>, i: Integrity, dh: Dh) {
    && OffersCipher(ts, e)
    && (prf.Some? ==> Offers(ts, PRF, PrfId(prf.value)))
    && (!i.NoIntegrity? ==> Offers(ts, INTEG, IntegrityId(i)))
    && !(i.NoIntegrity? && !IsAead(e))
    && (!dh.NoDh? ==> Offers(ts, DH, DhId(dh)))
  }

  predicate EsnMatches(ts: seq<Transform>, esn: bool) { exists t | t in ts :: t.kind == ESN && (t.id == 1) == esn }

  predicate IkeMatches(ts: seq<Transform>, p: IkeProposal) {
    OfferMatches(ts, p.encryption, Some(p.prf), p.integrity, p.dh)
  }

  predicate EspMatches(ts: seq<Transform>, p: ChildProposal) {
    OfferMatches(ts, p.encryption, None, p.integrity, p.dh) && EsnMatches(ts, p.esn)
  }

  function FindIke(configured: seq<IkeProposal>, ts: seq<Transform>): (r: Option<IkeProposal>) {
    if configured == [] then None
    else if IkeMatches(ts, configured[0]) then Some(configured[0])
    else FindIke(configured[1..], ts)
  }

  function SelectIke(configured: seq<IkeProposal>, offers: seq<Proposal>): (r: Result<(IkeProposal, u8)>) {
    if offers == [] then Err
    else
      var found := if offers[0].protocol == PROTO_IKE then FindIke(configured, offers[0].transforms) else None;
      if found.Some? then Ok((found.value, offers[0].number)) else SelectIke(configured, offers[1..])
  }

  function FindEsp(configured: seq<ChildProposal>, ts: seq<Transform>, includeDh: bool): (r: Option<ChildProposal>) {
    if configured == [] then None
    else if EspMatches(ts, Grouped(configured[0], includeDh)) then Some(Grouped(configured[0], includeDh))
    else FindEsp(configured[1..], ts, includeDh)
  }

  /** `select_esp_with_dh`. */
  function SelectEsp(configured: seq<ChildProposal>, offers: seq<Proposal>, includeDh: bool): (r: Result<(ChildProposal, u8)>) {
    if offers == [] then Err
    else
      var found := if offers[0].protocol == PROTO_ESP then FindEsp(configured, offers[0].transforms, includeDh) else None;
      if found.Some? then Ok((found.value, offers[0].number)) else SelectEsp(configured, offers[1..], includeDh)
  }

  // ----------------------------------------------------------------- parsing

  function FindTransform(ts: seq<Transform>, kind: u8): (r: Option<Transform>) {
    if ts == [] then None else if ts[0].kind == kind then Some(ts[0]) else FindTransform(ts[1..], kind)
  }

  function ParseEncryption(t: Transform): (r: Option<Encryption>) {
    var bits := FindBits(t.attributes);
    if t.id == 12 then
      if bits == Some(128) then Some(AesCbc128)
      else if bits == Some(192) then Some(AesCbc192)
      else if bits == Some(256) then Some(AesCbc256)
      else None
    else if t.id == 20 then
      if bits == Some(256) then Some(AesGcm256)
      else if bits == Some(128) || bits == None then Some(AesGcm128)
      else None
    else None
  }

  function ParsePrf(t: Transform): (r: Option<Prf>) {
    if t.id == 2 then Some(PrfSha1) else if t.id == 5 then Some(PrfSha256) else None
  }

  function ParseIntegrity(t: Transform): (r: Option<Integrity>) {
    if t.id == 0 then Some(NoIntegrity) else if t.id == 2 then Some(Sha1_96) else if t.id == 12 then Some(Sha256_128) else None
  }

  function ParseDh(t: Transform): (r: Option<Dh>) {
    if t.id == 0 then Some(NoDh)
    else if t.id == 14 then Some(Modp2048)
    else if t.id == 19 then Some(Ecp256)
    else if t.id == 20 then Some(Ecp384)
    else if t.id == 31 then Some(X25519)
    else None
  }

  function Then<T, U>(o: Option<T>, f: T -> Option<U>): (r: Option<U>) { if o.Some? then f(o.value) else None }

  function FindProtocol(ps: seq<Proposal>, protocol: u8): (r: Option<Proposal>) {
    if ps == [] then None else if ps[0].protocol == protocol then Some(ps[0]) else FindProtocol(ps[1..], protocol)
  }

  /** `parse_selected_ike`. */
  function ParseSelectedIke(ps: seq<Proposal>): (r: Result<IkeProposal>) {
    var offer := FindProtocol(ps, PROTO_IKE);
    if offer.None? then Err
    else
      var ts := offer.value.transforms;
      var encryption, prf := Then(FindTransform(ts, ENCR), ParseEncryption), Then(FindTransform(ts, PRF), ParsePrf);
      var integrity, dh := Then(FindTransform(ts, INTEG), ParseIntegrity), Then(FindTransform(ts, DH), ParseDh);
      if encryption.None? || prf.None? || dh.None? then Err
      else
        Ok(IkeProposal(encryption.value, prf.value, if integrity.Some? then integrity.value else NoIntegrity, dh.value))
  }

  // --------------------------------------------------------- what a match means

  lemma BitsOf(e: Encryption)
    ensures FindBits(EncrTransform(e).attributes) == Some(KeyBits(e))
  {
    W16Reads(KeyBits(e));
  }

  /** A cipher is determined by its transform number and key length. */
  lemma CipherIsUnique(e: Encryption, f: Encryption)
    ensures EncryptionId(e) == EncryptionId(f) && KeyBits(e) == KeyBits(f) ==> e == f
  {
  }

  lemma CipherMatch(e: Encryption, rest: seq<Transform>, f: Encryption)
    requires forall t | t in rest :: t.kind != ENCR
    ensures OffersCipher([EncrTransform(e)] + rest, f) <==> e == f
  {
    BitsOf(e);
    CipherIsUnique(e, f);
    hide FindBits, EncryptionId, KeyBits, W16;
    var ts := [EncrTransform(e)] + rest;
    assert ts[0] in ts;
    assert forall t | t in ts :: t == ts[0] || t in rest;
  }

  lemma IdsDiffer(i: Integrity, j: Integrity, d: Dh, f: Dh, p: Prf, q: Prf)
    ensures (IntegrityId(i) == IntegrityId(j) ==> i == j) && (DhId(d) == DhId(f) ==> d == f)
    ensures PrfId(p) == PrfId(q) ==> p == q
  {
  }

  lemma OfferedOnce(ts: seq<Transform>, k: nat, id: u16)
    requires k < |ts| && forall j | 0 <= j < |ts| && j != k :: ts[j].kind != ts[k].kind
    ensures Offers(ts, ts[k].kind, id) <==> ts[k].id == id
  {
    assert ts[k] in ts;
  }

  /** A configured proposal matches a built offer exactly when it is the offered one. */
  lemma IkeMatchIsEqual(p: IkeProposal, q: IkeProposal)
    requires ValidPair(p.encryption, p.integrity) && ValidPair(q.encryption, q.integrity) && !p.dh.NoDh? && !q.dh.NoDh?
    ensures IkeMatches(IkeTransforms(p), q) <==> p == q
  {
    hide EncryptionId, PrfId, IntegrityId, DhId, OffersCipher, Offers, EncrTransform, IsAead;
    IdsDiffer(p.integrity, q.integrity, p.dh, q.dh, p.prf, q.prf);
    var ts := IkeTransforms(p);
    assert EncrTransform(p.encryption).kind == ENCR by { EncrKind(p.encryption); }
    if p.integrity.NoIntegrity? {
      assert ts == [EncrTransform(p.encryption)] + [Plain(PRF, PrfId(p.prf)), Plain(DH, DhId(p.dh))];
      CipherMatch(p.encryption, [Plain(PRF, PrfId(p.prf)), Plain(DH, DhId(p.dh))], q.encryption);
      OfferedOnce(ts, 1, PrfId(q.prf));
      OfferedOnce(ts, 2, DhId(q.dh));
    } else {
      var rest := [Plain(PRF, PrfId(p.prf)), Plain(INTEG, IntegrityId(p.integrity)), Plain(DH, DhId(p.dh))];
      assert ts == [EncrTransform(p.encryption)] + rest;
      CipherMatch(p.encryption, rest, q.encryption);
      OfferedOnce(ts, 1, PrfId(q.prf));
      OfferedOnce(ts, 2, IntegrityId(q.integrity));
      OfferedOnce(ts, 3, DhId(q.dh));
    }
  }

  lemma EncrKind(e: Encryption)
    ensures EncrTransform(e).kind == ENCR
  {
  }

  lemma EspMatchIsEqual(p: ChildProposal, q: ChildProposal)
    requires ValidPair(p.encryption, p.integrity) && ValidPair(q.encryption, q.integrity)
    ensures EspMatches(EspTransforms(Strip(p)), Strip(q)) <==> Strip(p) == Strip(q)
  {
    hide EncryptionId, IntegrityId, DhId, OffersCipher, Offers, EncrTransform, IsAead;
    IdsDiffer(p.integrity, q.integrity, p.dh, q.dh, PrfSha1, PrfSha1);
    var ts := EspTransforms(Strip(p));
    var esn := Plain(ESN, if p.esn then 1 else 0);
    EncrKind(p.encryption);
    assert esn in ts;
    if p.integrity.NoIntegrity? {
      assert ts == [EncrTransform(p.encryption)] + [esn];
      CipherMatch(p.encryption, [esn], q.encryption);
    } else {
      var rest := [Plain(INTEG, IntegrityId(p.integrity)), esn];
      assert ts == [EncrTransform(p.encryption)] + rest;
      CipherMatch(p.encryption, rest, q.encryption);
      OfferedOnce(ts, 1, IntegrityId(q.integrity));
    }
    assert forall t | t in ts && t.kind == ESN :: t == esn;
  }

  // ---------------------------------------------------------------- selection

  predicate ValidIke(ps: seq<IkeProposal>) {
    |ps| <= 255 && forall p | p in ps :: ValidPair(p.encryption, p.integrity) && !p.dh.NoDh?
  }

  predicate ValidEsp(ps: seq<ChildProposal>) {
    |ps| <= 255 && forall p | p in ps :: ValidPair(p.encryption, p.integrity)
  }

  lemma {:induction false} FindIkeIs(configured: seq<IkeProposal>, p: IkeProposal)
    requires forall q | q in configured :: ValidPair(q.encryption, q.integrity) && !q.dh.NoDh?
    requires ValidPair(p.encryption, p.integrity) && !p.dh.NoDh?
    ensures FindIke(configured, IkeTransforms(p)) == if p in configured then Some(p) else None
  {
    hide IkeMatches, IkeTransforms, ValidPair;
    if configured != [] {
      assert configured[0] in configured;
      IkeMatchIsEqual(p, configured[0]);
      FindIkeIs(configured[1..], p);
      assert p in configured <==> p == configured[0] || p in configured[1..];
    }
  }

  predicate HasStripped(ps: seq<ChildProposal>, p: ChildProposal) { exists q | q in ps :: Strip(q) == Strip(p) }

  lemma {:induction false} FindEspIs(configured: seq<ChildProposal>, p: ChildProposal)
    requires forall q | q in configured :: ValidPair(q.encryption, q.integrity)
    requires ValidPair(p.encryption, p.integrity)
    ensures FindEsp(configured, EspTransforms(Strip(p)), false) == if HasStripped(configured, p) then Some(Strip(p)) else None
  {
    hide EspMatches, EspTransforms, ValidPair;
    if configured != [] {
      assert configured[0] in configured;
      EspMatchIsEqual(p, configured[0]);
      FindEspIs(configured[1..], p);
      assert forall q | q in configured :: q == configured[0] || q in configured[1..];
      assert forall q | q in configured[1..] :: q in configured;
    }
  }

  /** The answer is the first offered proposal that is also configured, or none if there is none. */
  predicate FirstCommonIke(mine: seq<IkeProposal>, theirs: seq<IkeProposal>, r: Result<(IkeProposal, u8)>) {
    match r
    case Ok((p, n)) => 1 <= n <= |theirs| && p == theirs[n - 1] && p in mine && forall j | 0 <= j < n - 1 :: theirs[j] !in mine
    case Err => forall j | 0 <= j < |theirs| :: theirs[j] !in mine
  }

  lemma {:induction false} SelectIkeFrom(mine: seq<IkeProposal>, theirs: seq<IkeProposal>, k: nat)
    requires ValidIke(mine) && ValidIke(theirs) && k <= |theirs| && forall j | 0 <= j < k :: theirs[j] !in mine
    ensures FirstCommonIke(mine, theirs, SelectIke(mine, BuildIke(theirs)[k..]))
    decreases |theirs| - k
  {
    hide FindIke, IkeTransforms, ValidPair;
    if k < |theirs| {
      var offers := BuildIke(theirs)[k..];
      assert theirs[k] in theirs;
      FindIkeIs(mine, theirs[k]);
      assert offers[0] == Proposal(k + 1, PROTO_IKE, [], IkeTransforms(theirs[k]));
      assert offers[1..] == BuildIke(theirs)[k + 1..];
      if theirs[k] !in mine {
        SelectIkeFrom(mine, theirs, k + 1);
      }
    }
  }

  predicate FirstCommonEsp(mine: seq<ChildProposal>, theirs: seq<ChildProposal>, r: Result<(ChildProposal, u8)>) {
    match r
    case Ok((p, n)) =>
      && 1 <= n <= |theirs| && p == Strip(theirs[n - 1]) && HasStripped(mine, p)
      && forall j | 0 <= j < n - 1 :: !HasStripped(mine, theirs[j])
    case Err => forall j | 0 <= j < |theirs| :: !HasStripped(mine, theirs[j])
  }

  lemma {:induction false} SelectEspFrom(mine: seq<ChildProposal>, theirs: seq<ChildProposal>, spi: u32, k: nat)
    requires ValidEsp(mine) && ValidEsp(theirs) && k <= |theirs| && forall j | 0 <= j < k :: !HasStripped(mine, theirs[j])
    ensures FirstCommonEsp(mine, theirs, SelectEsp(mine, BuildEsp(theirs, spi, false)[k..], false))
    decreases |theirs| - k
  {
    hide FindEsp, EspTransforms, ValidPair, HasStripped, BE;
    if k < |theirs| {
      var offers := BuildEsp(theirs, spi, false)[k..];
      assert theirs[k] in theirs;
      FindEspIs(mine, theirs[k]);
      StrippedTwice(mine, theirs[k]);
      assert offers[0] == Proposal(k + 1, PROTO_ESP, BE(4, spi), EspTransforms(Strip(theirs[k])));
      assert offers[1..] == BuildEsp(theirs, spi, false)[k + 1..];
      if !HasStripped(mine, theirs[k]) {
        SelectEspFrom(mine, theirs, spi, k + 1);
      }
    }
  }

  lemma StrippedTwice(ps: seq<ChildProposal>, p: ChildProposal)
    ensures HasStripped(ps, Strip(p)) == HasStripped(ps, p)
  {
  }

  // -------------------------------------------------------------- over the wire

  predicate SmallTransform(t: Transform) { |AttrsBytes(t.attributes)| <= 4 && forall a | a in t.attributes :: AttributeFits(a) }

  lemma {:induction false} TransformsLen(ts: seq<Transform>)
    requires forall t | t in ts :: SmallTransform(t)
    ensures |TransformsBytes(ts)| <= 12 * |ts|
  {
    hide SmallTransform;
    if ts != [] {
      TransformsLen(ts[1..]);
      assert SmallTransform(ts[0]);
      SmallLen(ts[0]);
    }
  }

  lemma SmallLen(t: Transform)
    requires SmallTransform(t)
    ensures |AttrsBytes(t.attributes)| <= 4 && TransformFits(t)
  {
  }

  lemma SmallFits(p: Proposal)
    requires |p.spi| <= 4 && |p.transforms| <= 4 && forall t | t in p.transforms :: SmallTransform(t)
    ensures ProposalFits(p)
  {
    hide SmallTransform, TransformFits;
    TransformsLen(p.transforms);
    forall t | t in p.transforms ensures TransformFits(t) {
      SmallLen(t);
    }
  }

  lemma EncrSmall(e: Encryption)
    ensures SmallTransform(EncrTransform(e))
  {
    var a := Attribute(14, W16(KeyBits(e)));
    assert AttrsBytes([a]) == AttrBytes(a) + AttrsBytes([]) by { assert [a][1..] == []; }
  }

  lemma IkeFits(p: IkeProposal, n: u8)
    ensures ProposalFits(Proposal(n, PROTO_IKE, [], IkeTransforms(p)))
  {
    EncrSmall(p.encryption);
    SmallFits(Proposal(n, PROTO_IKE, [], IkeTransforms(p)));
  }

  lemma EspFits(p: ChildProposal, n: u8, spi: u32)
    ensures ProposalFits(Proposal(n, PROTO_ESP, BE(4, spi), EspTransforms(p)))
  {
    EncrSmall(p.encryption);
    hide BE;
    SmallFits(Proposal(n, PROTO_ESP, BE(4, spi), EspTransforms(p)));
  }

  /** What the other end reads of an SA payload. */
  function OverTheWire(ps: seq<Proposal>): (r: Result<seq<Proposal>>) {
    var b :- SaBytes(ps);
    ReadSa(b)
  }

  function IkeAnswer(p: IkeProposal, n: u8): (r: seq<Proposal>) { [Proposal(n, PROTO_IKE, [], IkeTransforms(p))] }

  function EspAnswer(p: ChildProposal, n: u8, spi: u32): (r: seq<Proposal>) {
    [Proposal(n, PROTO_ESP, BE(4, spi), EspTransforms(p))]
  }

  lemma CipherParses(e: Encryption)
    ensures ParseEncryption(EncrTransform(e)) == Some(e)
  {
    BitsOf(e);
    hide FindBits, W16;
  }

  lemma AnswerParses(p: IkeProposal, n: u8)
    requires !p.dh.NoDh?
    ensures ParseSelectedIke(IkeAnswer(p, n)) == Ok(p)
  {
    CipherParses(p.encryption);
    EncrKind(p.encryption);
    hide ParseEncryption, EncrTransform;
    var ts := IkeTransforms(p);
    if p.integrity.NoIntegrity? {
      Finds(ts);
    } else {
      Finds(ts);
    }
  }

  /** Each kind is found where the builder put it. */
  lemma Finds(ts: seq<Transform>)
    requires 3 <= |ts| <= 4 && ts[0].kind == ENCR && ts[1].kind == PRF
    requires ts[2].kind == if |ts| == 3 then DH else INTEG
    requires |ts| == 4 ==> ts[3].kind == DH
    ensures FindTransform(ts, ENCR) == Some(ts[0]) && FindTransform(ts, PRF) == Some(ts[1])
    ensures FindTransform(ts, INTEG) == if |ts| == 3 then None else Some(ts[2])
    ensures FindTransform(ts, DH) == Some(ts[|ts| - 1])
  {
    FindSkips(ts, 1, PRF);
    FindSkips(ts, |ts| - 1, DH);
    if |ts| == 3 {
      FindNone(ts, INTEG);
    } else {
      FindSkips(ts, 2, INTEG);
    }
  }

  lemma {:induction false} FindSkips(ts: seq<Transform>, k: nat, kind: u8)
    requires k < |ts| && ts[k].kind == kind && forall j | 0 <= j < k :: ts[j].kind != kind
    ensures FindTransform(ts, kind) == Some(ts[k])
  {
    if k > 0 {
      FindSkips(ts[1..], k - 1, kind);
    }
  }

  lemma {:induction false} FindNone(ts: seq<Transform>, kind: u8)
    requires forall t | t in ts :: t.kind != kind
    ensures FindTransform(ts, kind) == None
  {
    if ts != [] {
      FindNone(ts[1..], kind);
    }
  }

  /** IKE_SA_INIT: both SA payloads survive the wire, the responder takes the initiator's first proposal that
      it also has and fails exactly when there is none, and the initiator reads the same suite back. */
  lemma IkeAgreement(initiator: seq<IkeProposal>, responder: seq<IkeProposal>)
    requires ValidIke(initiator) && ValidIke(responder)
    ensures OverTheWire(BuildIke(initiator)) == Ok(BuildIke(initiator))
    ensures var r := SelectIke(responder, BuildIke(initiator));
      && FirstCommonIke(responder, initiator, r)
      && (r.Ok? ==> OverTheWire(IkeAnswer(r.value.0, r.value.1)).Ok?
                    && ParseSelectedIke(OverTheWire(IkeAnswer(r.value.0, r.value.1)).value) == Ok(r.value.0))
  {
    hide SelectIke, IkeTransforms, ProposalFits, ParseSelectedIke;
    var offers := BuildIke(initiator);
    forall p | p in offers ensures ProposalFits(p) {
      var k :| 0 <= k < |offers| && offers[k] == p;
      IkeFits(initiator[k], (k + 1) % 256);
    }
    SaRoundTrip(offers);
    SelectIkeFrom(responder, initiator, 0);
    assert offers[0..] == offers;
    var r := SelectIke(responder, offers);
    if r.Ok? {
      var (p, n) := r.value;
      IkeFits(p, n);
      SaRoundTrip(IkeAnswer(p, n));
      AnswerParses(p, n);
    }
  }

  /** The SPI of the selected proposal, as the exchange handlers look it up. */
  function SpiOf(ps: seq<Proposal>, n: u8): (r: Option<u32>) {
    if ps == [] then None
    else if ps[0].number == n && ps[0].protocol == PROTO_ESP then
      if |ps[0].spi| < 4 then None
      else
        Widths();
        Some(FromBE(ps[0].spi[..4]))
    else SpiOf(ps[1..], n)
  }

  lemma {:induction false} SpiFound(ps: seq<ChildProposal>, spi: u32, k: nat, n: u8)
    requires k < n <= |ps| <= 255
    ensures SpiOf(BuildEsp(ps, spi, false)[k..], n) == Some(spi)
    decreases n - k
  {
    var offers := BuildEsp(ps, spi, false)[k..];
    Widths();
    FromBEOfBE(4, spi);
    hide BE, FromBE, EspTransforms, Pow256;
    assert offers[0].number == k + 1 && offers[0].spi == BE(4, spi) && offers[0].spi[..4] == BE(4, spi);
    assert offers[1..] == BuildEsp(ps, spi, false)[k + 1..];
    if k + 1 < n {
      SpiFound(ps, spi, k + 1, n);
    }
  }

  lemma OffersSurvive(ps: seq<ChildProposal>, spi: u32)
    ensures OverTheWire(BuildEsp(ps, spi, false)) == Ok(BuildEsp(ps, spi, false))
  {
    hide EspTransforms, ProposalFits, BE;
    var offers := BuildEsp(ps, spi, false);
    forall p | p in offers ensures ProposalFits(p) {
      var k :| 0 <= k < |offers| && offers[k] == p;
      EspFits(Strip(ps[k]), (k + 1) % 256, spi);
    }
    SaRoundTrip(offers);
  }

  lemma AnswerSurvives(p: ChildProposal, n: u8, spi: u32)
    ensures OverTheWire(EspAnswer(p, n, spi)) == Ok(EspAnswer(p, n, spi))
  {
    hide EspTransforms, ProposalFits, BE;
    EspFits(p, n, spi);
    SaRoundTrip(EspAnswer(p, n, spi));
  }

  /** IKE_AUTH: the same agreement for ESP up to the ignored group, and each end learns the other's SPI. */
  lemma EspAgreement(initiator: seq<ChildProposal>, responder: seq<ChildProposal>, spiI: u32, spiR: u32)
    requires ValidEsp(initiator) && ValidEsp(responder)
    ensures var offers := BuildEsp(initiator, spiI, false); var r := SelectEsp(responder, offers, false);
      && OverTheWire(offers) == Ok(offers) && FirstCommonEsp(responder, initiator, r)
      && (r.Ok? ==>
            var answer := EspAnswer(r.value.0, r.value.1, spiR);
            && OverTheWire(answer) == Ok(answer) && SelectEsp(initiator, answer, false) == r
            && SpiOf(offers, r.value.1) == Some(spiI) && SpiOf(answer, r.value.1) == Some(spiR))
  {
    hide SelectEsp, EspAnswer, OverTheWire, SpiOf, HasStripped, ValidEsp, BuildEsp;
    var offers := BuildEsp(initiator, spiI, false);
    OffersSurvive(initiator, spiI);
    SelectEspFrom(responder, initiator, spiI, 0);
    assert offers[0..] == offers;
    var r := SelectEsp(responder, offers, false);
    if r.Ok? {
      AtMost255(initiator);
      AnswerSurvives(r.value.0, r.value.1, spiR);
      SpiFound(initiator, spiI, 0, r.value.1);
      AnswerSelected(initiator, r.value.1, spiR);
    }
  }

  lemma AtMost255(ps: seq<ChildProposal>)
    requires ValidEsp(ps)
    ensures |ps| <= 255
  {
  }

  lemma AnswerSelected(initiator: seq<ChildProposal>, n: u8, spi: u32)
    requires ValidEsp(initiator) && 1 <= n <= |initiator|
    ensures var p := Strip(initiator[n - 1]); var answer := EspAnswer(p, n, spi);
      SelectEsp(initiator, answer, false) == Ok((p, n)) && SpiOf(answer, n) == Some(spi)
  {
    var p := initiator[n - 1];
    assert p in initiator;
    FindEspIs(initiator, p);
    assert HasStripped(initiator, p);
    Widths();
    FromBEOfBE(4, spi);
    hide BE, FromBE, EspTransforms, Pow256, FindEsp;
    assert BE(4, spi)[..4] == BE(4, spi);
  }
}
