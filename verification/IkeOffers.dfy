/** Proposal selection and the reading of an answer, on any transforms a peer may send. */
module IkeOffers {
  import opened Wire
  import opened IkeCodec
  import opened IkeSuite
  import opened IkeProposals

  // ------------------------------------------------------------ key lengths

  predicate IsKeyLength(a: Attribute) { a.kind == 14 && |a.value| == 2 }

  /** `bits` is the first Key Length attribute, if there is one. */
  predicate FirstLength(attributes: seq<Attribute>, bits: Option<u16>) {
    match bits
    case None => forall a | a in attributes :: !IsKeyLength(a)
    case Some(n) =>
      exists i | 0 <= i < |attributes| ::
        && IsKeyLength(attributes[i]) && n == Read16(attributes[i].value[0], attributes[i].value[1])
        && forall j | 0 <= j < i :: !IsKeyLength(attributes[j])
  }

  lemma {:induction false} FindBitsIs(attributes: seq<Attribute>)
    ensures FirstLength(attributes, FindBits(attributes))
  {
    if attributes != [] && !IsKeyLength(attributes[0]) {
      var rest := attributes[1..];
      FindBitsIs(rest);
      var bits := FindBits(rest);
      assert FindBits(attributes) == bits;
      if bits.Some? {
        var i :| 0 <= i < |rest| && IsKeyLength(rest[i]) && bits.value == Read16(rest[i].value[0], rest[i].value[1])
                 && forall j | 0 <= j < i :: !IsKeyLength(rest[j]);
        assert attributes[i + 1] == rest[i];
        assert forall j | 0 < j < i + 1 :: attributes[j] == rest[j - 1];
      }
    }
  }

  lemma FirstLengthUnique(attributes: seq<Attribute>, a: Option<u16>, b: Option<u16>)
    requires FirstLength(attributes, a) && FirstLength(attributes, b)
    ensures a == b
  {
  }

  lemma LengthIs(attributes: seq<Attribute>, bits: Option<u16>)
    ensures FindBits(attributes) == bits <==> FirstLength(attributes, bits)
  {
    hide FirstLength, FindBits;
    FindBitsIs(attributes);
    if FirstLength(attributes, bits) {
      FirstLengthUnique(attributes, bits, FindBits(attributes));
    }
  }

  // ------------------------------------------------------------- one offer

  predicate HasCipher(ts: seq<Transform>, id: u16, bits: u16) {
    exists t | t in ts :: t.kind == 1 && t.id == id && FirstLength(t.attributes, Some(bits))
  }

  predicate Has(ts: seq<Transform>, kind: u8, id: u16) { exists t | t in ts :: t.kind == kind && t.id == id }

  /** The offer lets us use the cipher, the integrity algorithm it needs, and the group if one is asked for. */
  predicate Protects(ts: seq<Transform>, e: Encryption, i: Integrity, dh: Dh) {
    && HasCipher(ts, if e.AesGcm128? || e.AesGcm256? then 20 else 12, 8 * KeyLen(e))
    && (if i.NoIntegrity? then e.AesGcm128? || e.AesGcm256? else Has(ts, 3, IntegrityId(i)))
    && (dh.NoDh? || Has(ts, 4, DhId(dh)))
  }

  predicate IkeFits(ts: seq<Transform>, p: IkeProposal) {
    Protects(ts, p.encryption, p.integrity, p.dh) && Has(ts, 2, PrfId(p.prf))
  }

  /** Extended sequence numbers are transform 1; every other number stands for plain ones. */
  predicate EspFits(ts: seq<Transform>, p: ChildProposal) {
    Protects(ts, p.encryption, p.integrity, p.dh) && exists t | t in ts :: t.kind == 5 && (t.id == 1 <==> p.esn)
  }

  lemma ProtectsIs(ts: seq<Transform>, e: Encryption, prf: Option<Prf>, i: Integrity, dh: Dh)
    ensures OfferMatches(ts, e, prf, i, dh) <==>
      Protects(ts, e, i, dh) && (prf.Some? ==> Has(ts, 2, PrfId(prf.value)))
  {
    hide FirstLength, FindBits, PrfId, IntegrityId, DhId;
    forall t | t in ts ensures FindBits(t.attributes) == Some(KeyBits(e)) <==> FirstLength(t.attributes, Some(8 * KeyLen(e))) {
      LengthIs(t.attributes, Some(8 * KeyLen(e)));
    }
    hide KeyLen;
    assert OffersCipher(ts, e) <==> HasCipher(ts, if e.AesGcm128? || e.AesGcm256? then 20 else 12, 8 * KeyLen(e));
  }

  lemma FitsAre(ts: seq<Transform>, p: IkeProposal, q: ChildProposal)
    ensures IkeMatches(ts, p) <==> IkeFits(ts, p)
    ensures EspMatches(ts, q) <==> EspFits(ts, q)
  {
    hide Protects, OfferMatches, Has;
    ProtectsIs(ts, p.encryption, Some(p.prf), p.integrity, p.dh);
    ProtectsIs(ts, q.encryption, None, q.integrity, q.dh);
  }

  // -------------------------------------------------------------- selection

  predicate NoIke(configured: seq<IkeProposal>, offer: Proposal) {
    offer.protocol == 1 ==> forall q | q in configured :: !IkeFits(offer.transforms, q)
  }

  /** The first configured proposal that fits the first offer for IKE that any fits, under that offer's number. */
  predicate IkeChoice(configured: seq<IkeProposal>, offers: seq<Proposal>, i: nat, j: nat, p: IkeProposal, n: u8)
    requires i < |offers| && j < |configured|
  {
    && offers[i].protocol == 1 && n == offers[i].number && p == configured[j] && IkeFits(offers[i].transforms, p)
    && (forall k | 0 <= k < j :: !IkeFits(offers[i].transforms, configured[k]))
    && (forall k | 0 <= k < i :: NoIke(configured, offers[k]))
  }

  predicate IkeChosen(configured: seq<IkeProposal>, offers: seq<Proposal>, p: IkeProposal, n: u8) {
    exists i: nat, j: nat | i < |offers| && j < |configured| :: IkeChoice(configured, offers, i, j, p, n)
  }

  lemma IkeChosenBy(configured: seq<IkeProposal>, offers: seq<Proposal>, i: nat, j: nat, p: IkeProposal, n: u8)
    requires i < |offers| && j < |configured| && IkeChoice(configured, offers, i, j, p, n)
    ensures IkeChosen(configured, offers, p, n)
  {
  }

  lemma {:induction false} FindIkeExact(configured: seq<IkeProposal>, ts: seq<Transform>) returns (j: nat)
    ensures var r := FindIke(configured, ts);
      if r.None? then forall q | q in configured :: !IkeFits(ts, q)
      else
        && j < |configured| && r.value == configured[j] && IkeFits(ts, configured[j])
        && forall k | 0 <= k < j :: !IkeFits(ts, configured[k])
  {
    hide IkeFits, IkeMatches, EspFits, EspMatches;
    j := 0;
    if configured != [] {
      FitsAre(ts, configured[0], ChildProposal(AesCbc128, NoIntegrity, false, NoDh));
      if !IkeFits(ts, configured[0]) {
        var rest := FindIkeExact(configured[1..], ts);
        j := rest + 1;
        assert forall k | 0 < k < |configured| :: configured[k] == configured[1..][k - 1];
      }
    }
  }

  /** On any offers, selection fails exactly when no offer for IKE fits, and otherwise chooses as it should. */
  lemma {:induction false} SelectIkeExact(configured: seq<IkeProposal>, offers: seq<Proposal>)
    ensures match SelectIke(configured, offers)
      case Ok((p, n)) => IkeChosen(configured, offers, p, n)
      case Err => forall k | 0 <= k < |offers| :: NoIke(configured, offers[k])
  {
    hide IkeFits, FindIke;
    if offers != [] {
      var j := FindIkeExact(configured, offers[0].transforms);
      if offers[0].protocol == 1 && FindIke(configured, offers[0].transforms).Some? {
        IkeChosenBy(configured, offers, 0, j, configured[j], offers[0].number);
      } else {
        var rest := offers[1..];
        SelectIkeExact(configured, rest);
        assert NoIke(configured, offers[0]);
        assert forall k | 0 < k < |offers| :: offers[k] == rest[k - 1];
        var r := SelectIke(configured, rest);
        assert SelectIke(configured, offers) == r;
        if r.Ok? {
          var i: nat, l: nat :| i < |rest| && l < |configured| && IkeChoice(configured, rest, i, l, r.value.0, r.value.1);
          IkeLater(configured, offers, i, l, r.value.0, r.value.1);
          IkeChosenBy(configured, offers, i + 1, l, r.value.0, r.value.1);
        }
      }
    }
  }

  lemma IkeLater(configured: seq<IkeProposal>, offers: seq<Proposal>, i: nat, j: nat, p: IkeProposal, n: u8)
    requires offers != [] && NoIke(configured, offers[0])
    requires i < |offers[1..]| && j < |configured| && IkeChoice(configured, offers[1..], i, j, p, n)
    ensures IkeChoice(configured, offers, i + 1, j, p, n)
  {
    hide IkeFits, NoIke;
    var rest := offers[1..];
    forall k | 0 <= k < i + 1 ensures NoIke(configured, offers[k]) {
      if k > 0 {
        assert NoIke(configured, rest[k - 1]);
      }
    }
  }

  /** A configured suite as it is offered and compared: with its group or, in IKE_AUTH, without. */
  function AsUsed(p: ChildProposal, includeDh: bool): (q: ChildProposal) {
    ChildProposal(p.encryption, p.integrity, p.esn, if includeDh then p.dh else NoDh)
  }

  predicate NoEsp(configured: seq<ChildProposal>, offer: Proposal, includeDh: bool) {
    offer.protocol == 3 ==> forall q | q in configured :: !EspFits(offer.transforms, AsUsed(q, includeDh))
  }

  predicate EspChoice(configured: seq<ChildProposal>, offers: seq<Proposal>, includeDh: bool, i: nat, j: nat,
                      p: ChildProposal, n: u8)
    requires i < |offers| && j < |configured|
  {
    && offers[i].protocol == 3 && n == offers[i].number && p == AsUsed(configured[j], includeDh)
    && EspFits(offers[i].transforms, p)
    && (forall k | 0 <= k < j :: !EspFits(offers[i].transforms, AsUsed(configured[k], includeDh)))
    && (forall k | 0 <= k < i :: NoEsp(configured, offers[k], includeDh))
  }

  predicate EspChosen(configured: seq<ChildProposal>, offers: seq<Proposal>, includeDh: bool, p: ChildProposal, n: u8) {
    exists i: nat, j: nat | i < |offers| && j < |configured| :: EspChoice(configured, offers, includeDh, i, j, p, n)
  }

  lemma EspChosenBy(configured: seq<ChildProposal>, offers: seq<Proposal>, includeDh: bool, i: nat, j: nat, p: ChildProposal, n: u8)
    requires i < |offers| && j < |configured| && EspChoice(configured, offers, includeDh, i, j, p, n)
    ensures EspChosen(configured, offers, includeDh, p, n)
  {
  }

  lemma {:induction false} FindEspExact(configured: seq<ChildProposal>, ts: seq<Transform>, includeDh: bool) returns (j: nat)
    ensures var r := FindEsp(configured, ts, includeDh);
      if r.None? then forall q | q in configured :: !EspFits(ts, AsUsed(q, includeDh))
      else
        && j < |configured| && r.value == AsUsed(configured[j], includeDh) && EspFits(ts, AsUsed(configured[j], includeDh))
        && forall k | 0 <= k < j :: !EspFits(ts, AsUsed(configured[k], includeDh))
  {
    hide IkeFits, IkeMatches, EspFits, EspMatches;
    j := 0;
    if configured != [] {
      FitsAre(ts, IkeProposal(AesCbc128, PrfSha1, NoIntegrity, NoDh), AsUsed(configured[0], includeDh));
      assert Grouped(configured[0], includeDh) == AsUsed(configured[0], includeDh);
      if !EspFits(ts, AsUsed(configured[0], includeDh)) {
        var rest := FindEspExact(configured[1..], ts, includeDh);
        j := rest + 1;
        assert forall k | 0 < k < |configured| :: configured[k] == configured[1..][k - 1];
      }
    }
  }

  /** The same for ESP, in IKE_AUTH without the group and in CREATE_CHILD_SA with it. */
  lemma {:induction false} SelectEspExact(configured: seq<ChildProposal>, offers: seq<Proposal>, includeDh: bool)
    ensures match SelectEsp(configured, offers, includeDh)
      case Ok((p, n)) => EspChosen(configured, offers, includeDh, p, n)
      case Err => forall k | 0 <= k < |offers| :: NoEsp(configured, offers[k], includeDh)
  {
    hide EspFits, FindEsp;
    if offers != [] {
      var j := FindEspExact(configured, offers[0].transforms, includeDh);
      if offers[0].protocol == 3 && FindEsp(configured, offers[0].transforms, includeDh).Some? {
        EspChosenBy(configured, offers, includeDh, 0, j, AsUsed(configured[j], includeDh), offers[0].number);
      } else {
        var rest := offers[1..];
        SelectEspExact(configured, rest, includeDh);
        assert NoEsp(configured, offers[0], includeDh);
        assert forall k | 0 < k < |offers| :: offers[k] == rest[k - 1];
        var r := SelectEsp(configured, rest, includeDh);
        assert SelectEsp(configured, offers, includeDh) == r;
        if r.Ok? {
          var i: nat, l: nat :|
            i < |rest| && l < |configured| && EspChoice(configured, rest, includeDh, i, l, r.value.0, r.value.1);
          EspLater(configured, offers, includeDh, i, l, r.value.0, r.value.1);
          EspChosenBy(configured, offers, includeDh, i + 1, l, r.value.0, r.value.1);
        }
      }
    }
  }

  lemma EspLater(configured: seq<ChildProposal>, offers: seq<Proposal>, includeDh: bool, i: nat, j: nat, p: ChildProposal, n: u8)
    requires offers != [] && NoEsp(configured, offers[0], includeDh)
    requires i < |offers[1..]| && j < |configured| && EspChoice(configured, offers[1..], includeDh, i, j, p, n)
    ensures EspChoice(configured, offers, includeDh, i + 1, j, p, n)
  {
    hide EspFits, NoEsp;
    var rest := offers[1..];
    forall k | 0 <= k < i + 1 ensures NoEsp(configured, offers[k], includeDh) {
      if k > 0 {
        assert NoEsp(configured, rest[k - 1], includeDh);
      }
    }
  }

  // ----------------------------------------------------------------- answers

  /** `t` is the first transform of its kind. */
  predicate FirstOfKind(ts: seq<Transform>, kind: u8, t: Transform) {
    exists i | 0 <= i < |ts| :: ts[i] == t && t.kind == kind && forall j | 0 <= j < i :: ts[j].kind != kind
  }

  lemma {:induction false} FindTransformIs(ts: seq<Transform>, kind: u8)
    ensures var r := FindTransform(ts, kind);
      (r.Some? ==> FirstOfKind(ts, kind, r.value)) && (r.None? <==> forall t | t in ts :: t.kind != kind)
  {
    if ts != [] && ts[0].kind != kind {
      var rest := ts[1..];
      FindTransformIs(rest, kind);
      var r := FindTransform(rest, kind);
      if r.Some? {
        var i :| 0 <= i < |rest| && rest[i] == r.value && r.value.kind == kind && forall j | 0 <= j < i :: rest[j].kind != kind;
        assert ts[i + 1] == r.value;
        assert forall j | 0 < j < i + 1 :: ts[j] == rest[j - 1];
      }
    }
  }

  lemma FirstUnique(ts: seq<Transform>, kind: u8, t: Transform, u: Transform)
    requires FirstOfKind(ts, kind, t) && FirstOfKind(ts, kind, u)
    ensures t == u
  {
  }

  /** The transform names the cipher: AES-CBC with its key length, AES-GCM with it or, for 128 bits, without one. */
  predicate NamesCipher(t: Transform, e: Encryption) {
    && t.id == (if e.AesGcm128? || e.AesGcm256? then 20 else 12)
    && (FirstLength(t.attributes, Some(8 * KeyLen(e))) || (e.AesGcm128? && FirstLength(t.attributes, None)))
  }

  lemma CipherNamed(t: Transform, e: Encryption)
    ensures ParseEncryption(t) == Some(e) <==> NamesCipher(t, e)
  {
    hide FirstLength, FindBits;
    LengthIs(t.attributes, Some(8 * KeyLen(e)));
    LengthIs(t.attributes, None);
  }

  lemma OthersNamed(t: Transform, p: Prf, i: Integrity, d: Dh)
    ensures ParsePrf(t) == Some(p) <==> t.id == PrfId(p)
    ensures ParseIntegrity(t) == Some(i) <==> t.id == IntegrityId(i)
    ensures ParseDh(t) == Some(d) <==> t.id == DhId(d)
  {
  }

  predicate FirstProposal(ps: seq<Proposal>, p: Proposal) {
    exists i | 0 <= i < |ps| :: ps[i] == p && p.protocol == 1 && forall j | 0 <= j < i :: ps[j].protocol != 1
  }

  lemma {:induction false} FindProtocolIs(ps: seq<Proposal>)
    ensures var r := FindProtocol(ps, 1);
      (r.Some? ==> FirstProposal(ps, r.value)) && (r.None? ==> forall p | p in ps :: p.protocol != 1)
  {
    if ps != [] && ps[0].protocol != 1 {
      var rest := ps[1..];
      FindProtocolIs(rest);
      var r := FindProtocol(rest, 1);
      if r.Some? {
        var i :| 0 <= i < |rest| && rest[i] == r.value && r.value.protocol == 1 && forall j | 0 <= j < i :: rest[j].protocol != 1;
        assert ps[i + 1] == r.value;
        assert forall j | 0 < j < i + 1 :: ps[j] == rest[j - 1];
      }
    }
  }

  /** The first transforms of each kind say `p`; no integrity transform, or one not known, means none. */
  predicate Says(ts: seq<Transform>, p: IkeProposal) {
    && (exists t | t in ts :: FirstOfKind(ts, 1, t) && NamesCipher(t, p.encryption))
    && (exists t | t in ts :: FirstOfKind(ts, 2, t) && t.id == PrfId(p.prf))
    && (exists t | t in ts :: FirstOfKind(ts, 4, t) && t.id == DhId(p.dh))
    && (if p.integrity.NoIntegrity? then forall t | t in ts :: FirstOfKind(ts, 3, t) ==> t.id != 2 && t.id != 12
        else exists t | t in ts :: FirstOfKind(ts, 3, t) && t.id == IntegrityId(p.integrity))
  }

  lemma FirstIn(ts: seq<Transform>, kind: u8, t: Transform)
    requires FirstOfKind(ts, kind, t)
    ensures t in ts && t.kind == kind && FindTransform(ts, kind) == Some(t)
  {
    FindTransformIs(ts, kind);
    var r := FindTransform(ts, kind);
    if r.Some? {
      FirstUnique(ts, kind, t, r.value);
    }
  }

  lemma KindSays(ts: seq<Transform>, kind: u8)
    ensures var r := FindTransform(ts, kind);
      && (r.Some? ==> r.value in ts && FirstOfKind(ts, kind, r.value))
      && (forall t | t in ts :: FirstOfKind(ts, kind, t) ==> r == Some(t))
  {
    FindTransformIs(ts, kind);
    hide FirstOfKind, FindTransform;
    var r := FindTransform(ts, kind);
    if r.Some? {
      FirstIn(ts, kind, r.value);
    }
    forall t | t in ts && FirstOfKind(ts, kind, t) ensures r == Some(t) {
      FirstIn(ts, kind, t);
    }
  }

  /** An answer reads as exactly the suite its first IKE proposal says, and as an error if it says none. */
  lemma AnswerExact(ps: seq<Proposal>, p: IkeProposal)
    ensures ParseSelectedIke(ps) == Ok(p) <==> exists offer | offer in ps :: FirstProposal(ps, offer) && Says(offer.transforms, p)
  {
    FindProtocolIs(ps);
    var offer := FindProtocol(ps, 1);
    if offer.Some? {
      SaysIs(offer.value.transforms, p);
      hide Says;
      forall other | other in ps && FirstProposal(ps, other) ensures other == offer.value {
        OneFirst(ps, other, offer.value);
      }
      assert offer.value in ps;
    }
  }

  lemma OneFirst(ps: seq<Proposal>, a: Proposal, b: Proposal)
    requires FirstProposal(ps, a) && FirstProposal(ps, b)
    ensures a == b
  {
  }

  function ReadSuite(ts: seq<Transform>): (r: Result<IkeProposal>) {
    ParseSelectedIke([Proposal(1, 1, [], ts)])
  }

  lemma SaysIs(ts: seq<Transform>, p: IkeProposal)
    ensures ReadSuite(ts) == Ok(p) <==> Says(ts, p)
  {
    hide FirstOfKind, FindTransform, ParseEncryption, NamesCipher;
    KindSays(ts, 1);
    KindSays(ts, 2);
    KindSays(ts, 3);
    KindSays(ts, 4);
    forall t | t in ts
      ensures ParseEncryption(t) == Some(p.encryption) <==> NamesCipher(t, p.encryption)
      ensures ParsePrf(t) == Some(p.prf) <==> t.id == PrfId(p.prf)
      ensures ParseIntegrity(t) == Some(p.integrity) <==> t.id == IntegrityId(p.integrity)
      ensures ParseDh(t) == Some(p.dh) <==> t.id == DhId(p.dh)
    {
      CipherNamed(t, p.encryption);
      OthersNamed(t, p.prf, p.integrity, p.dh);
    }
  }
}
