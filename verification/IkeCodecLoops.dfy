/** The IKEv2 codec as the source runs it: growing buffers and advancing cursors. */
module IkeCodecLoops {
  import opened Wire
  import opened IkeCodec

  /** The octets from `i` on. */
  function From(b: bytes, i: nat): (r: bytes)
    requires i <= |b|
  {
    b[i..]
  }

  lemma FromAt(b: bytes, i: nat)
    requires i <= |b|
    ensures |From(b, i)| == |b| - i
    ensures forall k | 0 <= k < |b| - i :: From(b, i)[k] == b[i + k]
  {
  }

  lemma FromSlice(b: bytes, i: nat, j: nat, k: nat)
    requires i <= |b| && j <= k <= |b| - i
    ensures From(b, i)[j..k] == b[i + j..i + k] && From(b, i)[k..] == From(b, i + k)
  {
  }

  /** What a loop has collected, followed by what is still to come. */
  function Join<T>(done: seq<T>, r: Result<seq<T>>): (s: Result<seq<T>>) {
    if r.Ok? then Ok(done + r.value) else Err
  }

  lemma JoinMore<T>(done: seq<T>, x: seq<T>, r: Result<seq<T>>)
    ensures Join(done, Join(x, r)) == Join(done + x, r)
  {
    if r.Ok? {
      assert done + (x + r.value) == done + x + r.value;
    }
  }

  lemma JoinDone<T>(done: seq<T>)
    ensures Join(done, Ok([])) == Ok(done)
  {
    assert done + [] == done;
  }

  lemma JoinNone<T>(r: Result<seq<T>>)
    ensures Join([], r) == r
  {
    if r.Ok? {
      assert [] + r.value == r.value;
    }
  }

  // ---------------------------------------------------------------- printers

  lemma AttrsFrom(attributes: seq<Attribute>, i: nat)
    requires i < |attributes|
    ensures AttrsBytes(attributes[i..]) == AttrBytes(attributes[i]) + AttrsBytes(attributes[i + 1..])
  {
    hide AttrBytes;
    assert attributes[i..][1..] == attributes[i + 1..];
  }

  lemma Assoc(a: bytes, b: bytes, c: bytes)
    ensures a + (b + c) == a + b + c
  {
  }

  method EncodeAttribute(a: Attribute) returns (b: bytes)
    ensures b == AttrBytes(a)
  {
    if a.kind == 14 && |a.value| == 2 {
      b := W16(0x8000 + a.kind) + a.value;
    } else {
      b := W16(a.kind) + W16(|a.value|) + a.value;
    }
  }

  lemma AttrsNone(attributes: seq<Attribute>)
    ensures attributes[0..] == attributes && AttrsBytes(attributes[|attributes|..]) == []
  {
  }

  method EncodeAttributes(attributes: seq<Attribute>) returns (b: bytes)
    ensures b == AttrsBytes(attributes)
  {
    hide AttrsBytes, AttrBytes;
    AttrsNone(attributes);
    b := [];
    for i := 0 to |attributes|
      invariant b + AttrsBytes(attributes[i..]) == AttrsBytes(attributes)
    {
      AttrsFrom(attributes, i);
      var octets := EncodeAttribute(attributes[i]);
      Assoc(b, octets, AttrsBytes(attributes[i + 1..]));
      b := b + octets;
    }
  }

  lemma TransformsFrom(ts: seq<Transform>, i: nat)
    requires i < |ts|
    ensures TransformsBytes(ts[i..])
         == TransformHead(ts[i], i == |ts| - 1) + AttrsBytes(ts[i].attributes) + TransformsBytes(ts[i + 1..])
  {
    hide TransformHead, AttrsBytes;
    assert ts[i..][1..] == ts[i + 1..];
  }

  lemma TransformsNone(ts: seq<Transform>)
    ensures ts[0..] == ts && TransformsBytes(ts[|ts|..]) == []
  {
  }

  method EncodeTransformHead(t: Transform, last: bool, attributes: bytes) returns (head: bytes)
    requires attributes == AttrsBytes(t.attributes)
    ensures head == TransformHead(t, last)
  {
    hide AttrsBytes;
    var n := 8 + |attributes|;
    head := [if last then 0 else 3, 0, n / 256 % 256, n % 256, t.kind, 0, t.id / 256, t.id % 256];
  }

  method EncodeTransforms(ts: seq<Transform>) returns (b: bytes)
    ensures b == TransformsBytes(ts)
  {
    hide AttrsBytes, TransformHead, TransformsBytes;
    TransformsNone(ts);
    b := [];
    for i := 0 to |ts|
      invariant b + TransformsBytes(ts[i..]) == TransformsBytes(ts)
    {
      TransformsFrom(ts, i);
      var attributes := EncodeAttributes(ts[i].attributes);
      var head := EncodeTransformHead(ts[i], i == |ts| - 1, attributes);
      Assoc(b, head + attributes, TransformsBytes(ts[i + 1..]));
      b := b + (head + attributes);
    }
  }

  lemma SaStepIs(ps: seq<Proposal>, i: nat)
    requires i < |ps| && |ps[i].spi| <= 255
    ensures SaBytes(ps[i..])
         == Join(ProposalHead(ps[i], i == |ps| - 1) + (ps[i].spi + TransformsBytes(ps[i].transforms)), SaBytes(ps[i + 1..]))
  {
    hide ProposalHead, TransformsBytes;
    assert ps[i..][1..] == ps[i + 1..];
  }

  method EncodeSa(ps: seq<Proposal>) returns (r: Result<bytes>)
    ensures r == SaBytes(ps)
  {
    hide TransformsBytes, SaBytes;
    SaNone(ps);
    JoinNone(SaBytes(ps));
    var b: bytes := [];
    for i := 0 to |ps|
      invariant Join(b, SaBytes(ps[i..])) == SaBytes(ps)
    {
      var p := ps[i];
      if |p.spi| > 255 {
        SaTooLong(ps, i);
        return Err;
      }
      SaStepIs(ps, i);
      var transforms := EncodeTransforms(p.transforms);
      var n := 8 + |p.spi| + |transforms|;
      var head := [if i == |ps| - 1 then 0 else 2, 0, n / 256 % 256, n % 256, p.number, p.protocol, |p.spi|, |p.transforms| % 256];
      assert head == ProposalHead(p, i == |ps| - 1);
      hide ProposalHead;
      JoinMore(b, head + (p.spi + transforms), SaBytes(ps[i + 1..]));
      b := b + (head + (p.spi + transforms));
    }
    JoinDone(b);
    return Ok(b);
  }

  lemma SaTooLong(ps: seq<Proposal>, i: nat)
    requires i < |ps| && |ps[i].spi| > 255
    ensures SaBytes(ps[i..]) == Err
  {
  }

  lemma SaNone(ps: seq<Proposal>)
    ensures SaBytes(ps[|ps|..]) == Ok([]) && ps[0..] == ps
  {
  }

  method EncodeSelectors(ss: seq<TsSelector>) returns (r: Result<bytes>)
    ensures r == SelectorsBytes(ss)
  {
    hide SelectorsBytes, AddressBytes, SelectorHead;
    SelectorsNone(ss);
    JoinNone(SelectorsBytes(ss));
    var b: bytes := [];
    for i := 0 to |ss|
      invariant Join(b, SelectorsBytes(ss[i..])) == SelectorsBytes(ss)
    {
      SelectorsFrom(ss, i);
      var addresses := AddressBytes(ss[i]);
      if addresses.Err? {
        return Err;
      }
      JoinMore(b, SelectorHead(ss[i]) + addresses.value, SelectorsBytes(ss[i + 1..]));
      b := b + (SelectorHead(ss[i]) + addresses.value);
    }
    JoinDone(b);
    return Ok(b);
  }

  lemma SelectorsFrom(ss: seq<TsSelector>, i: nat)
    requires i < |ss|
    ensures SelectorsBytes(ss[i..])
         == match AddressBytes(ss[i])
            case Err => Err
            case Ok(addresses) => Join(SelectorHead(ss[i]) + addresses, SelectorsBytes(ss[i + 1..]))
  {
    hide AddressBytes, SelectorHead;
    assert ss[i..][1..] == ss[i + 1..];
  }

  lemma SelectorsNone(ss: seq<TsSelector>)
    ensures SelectorsBytes(ss[|ss|..]) == Ok([]) && ss[0..] == ss
  {
  }

  method EncodeSpis(size: u8, spis: seq<u32>) returns (r: Result<bytes>)
    ensures r == SpisBytes(size, spis)
  {
    hide SpisBytes, SpiBytes;
    SpisNone(size, spis);
    JoinNone(SpisBytes(size, spis));
    var b: bytes := [];
    for i := 0 to |spis|
      invariant Join(b, SpisBytes(size, spis[i..])) == SpisBytes(size, spis)
    {
      SpisFrom(size, spis, i);
      var spi := SpiBytes(size, spis[i]);
      if spi.Err? {
        return Err;
      }
      JoinMore(b, spi.value, SpisBytes(size, spis[i + 1..]));
      b := b + spi.value;
    }
    JoinDone(b);
    return Ok(b);
  }

  lemma SpisFrom(size: u8, spis: seq<u32>, i: nat)
    requires i < |spis|
    ensures SpisBytes(size, spis[i..])
         == match SpiBytes(size, spis[i]) case Err => Err case Ok(spi) => Join(spi, SpisBytes(size, spis[i + 1..]))
  {
    hide SpiBytes;
    assert spis[i..][1..] == spis[i + 1..];
  }

  lemma SpisNone(size: u8, spis: seq<u32>)
    ensures SpisBytes(size, spis[|spis|..]) == Ok([]) && spis[0..] == spis
  {
  }

  method EncodeConfig(attributes: seq<Attribute>) returns (r: Result<bytes>)
    ensures r == ConfigBytes(attributes)
  {
    hide ConfigBytes, W16;
    ConfigNone(attributes);
    JoinNone(ConfigBytes(attributes));
    var b: bytes := [];
    for i := 0 to |attributes|
      invariant Join(b, ConfigBytes(attributes[i..])) == ConfigBytes(attributes)
    {
      ConfigFrom(attributes, i);
      var a := attributes[i];
      if |a.value| > 0xffff {
        return Err;
      }
      JoinMore(b, W16(a.kind) + W16(|a.value|) + a.value, ConfigBytes(attributes[i + 1..]));
      b := b + (W16(a.kind) + W16(|a.value|) + a.value);
    }
    JoinDone(b);
    return Ok(b);
  }

  lemma ConfigFrom(attributes: seq<Attribute>, i: nat)
    requires i < |attributes|
    ensures var a := attributes[i];
      ConfigBytes(attributes[i..])
      == if |a.value| > 0xffff then Err
         else Join(W16(a.kind) + W16(|a.value|) + a.value, ConfigBytes(attributes[i + 1..]))
  {
    hide W16;
    assert attributes[i..][1..] == attributes[i + 1..];
  }

  lemma ConfigNone(attributes: seq<Attribute>)
    ensures ConfigBytes(attributes[|attributes|..]) == Ok([]) && attributes[0..] == attributes
  {
  }

  /** `encode_body`, with its loops. */
  method EncodeBody(p: Payload) returns (r: Result<bytes>)
    ensures r == Body(p)
  {
    hide SaBytes, SpisBytes, SelectorsBytes, ConfigBytes, W16;
    match p {
      case Sa(proposals) => r := EncodeSa(proposals);
      case Delete(protocol, size, spis) =>
        var tail := EncodeSpis(size, spis);
        r := if tail.Ok? then Ok([protocol, size] + W16(|spis|) + tail.value) else Err;
      case Ts(_, selectors) =>
        var tail := EncodeSelectors(selectors);
        r := if tail.Ok? then Ok([|selectors| % 256, 0, 0, 0] + tail.value) else Err;
      case Config(attributes) => r := EncodeConfig(attributes);
      case _ => r := Body(p);
    }
  }

  lemma ChainStepIs(ps: seq<Payload>, i: nat)
    requires i < |ps|
    ensures Body(ps[i]).Err? ==> Chain(ps[i..]) == Err
    ensures Body(ps[i]).Ok? && 4 + |Body(ps[i]).value| > 0xffff ==> Chain(ps[i..]) == Err
    ensures Body(ps[i]).Ok? && 4 + |Body(ps[i]).value| <= 0xffff ==>
      var body := Body(ps[i]).value;
      Chain(ps[i..]) == Join([FirstKind(ps[i + 1..]), 0] + W16(4 + |body|) + body, Chain(ps[i + 1..]))
  {
    hide Body, W16, FirstKind;
    assert ps[i..][1..] == ps[i + 1..];
  }

  /** `encode_chain`. */
  method EncodeChain(ps: seq<Payload>) returns (r: Result<bytes>)
    ensures r == Chain(ps)
  {
    hide Body, Chain, W16;
    ChainNone(ps);
    JoinNone(Chain(ps));
    var b: bytes := [];
    for i := 0 to |ps|
      invariant Join(b, Chain(ps[i..])) == Chain(ps)
    {
      ChainStepIs(ps, i);
      var body := EncodeBody(ps[i]);
      if body.Err? || 4 + |body.value| > 0xffff {
        return Err;
      }
      var next := if i + 1 < |ps| then Kind(ps[i + 1]) else 0;
      assert next == FirstKind(ps[i + 1..]);
      JoinMore(b, [next, 0] + W16(4 + |body.value|) + body.value, Chain(ps[i + 1..]));
      b := b + ([next, 0] + W16(4 + |body.value|) + body.value);
    }
    JoinDone(b);
    return Ok(b);
  }

  lemma ChainNone(ps: seq<Payload>)
    ensures Chain(ps[|ps|..]) == Ok([]) && ps[0..] == ps
  {
  }

  // ----------------------------------------------------------------- parsers

  lemma AttrsAt(b: bytes, i: nat)
    requires i + 4 <= |b|
    ensures var kind := Read16(b[i], b[i + 1]); var n := 4 + Read16(b[i + 2], b[i + 3]);
      ReadAttrs(From(b, i))
      == if kind >= 0x8000 then Join([Attribute(kind - 0x8000, b[i + 2..i + 4])], ReadAttrs(From(b, i + 4)))
         else if i + n > |b| then Err
         else Join([Attribute(kind, b[i + 4..i + n])], ReadAttrs(From(b, i + n)))
  {
    FromAt(b, i);
    FromSlice(b, i, 2, 4);
    var n := 4 + Read16(b[i + 2], b[i + 3]);
    if i + n <= |b| {
      FromSlice(b, i, 4, n);
    }
    hide From, Read16;
  }

  method DecodeAttributes(b: bytes) returns (r: Result<seq<Attribute>>)
    ensures r == ReadAttrs(b)
  {
    hide ReadAttrs, From, Read16;
    FromStart(b);
    JoinNone(ReadAttrs(b));
    var attributes: seq<Attribute> := [];
    var cursor: nat := 0;
    while cursor + 4 <= |b|
      invariant cursor <= |b| && Join(attributes, ReadAttrs(From(b, cursor))) == ReadAttrs(b)
    {
      AttrsAt(b, cursor);
      var kind := Read16(b[cursor], b[cursor + 1]);
      if kind >= 0x8000 {
        var a := Attribute(kind - 0x8000, b[cursor + 2..cursor + 4]);
        JoinMore(attributes, [a], ReadAttrs(From(b, cursor + 4)));
        attributes := attributes + [a];
        cursor := cursor + 4;
      } else {
        var n := 4 + Read16(b[cursor + 2], b[cursor + 3]);
        if cursor + n > |b| {
          return Err;
        }
        var a := Attribute(kind, b[cursor + 4..cursor + n]);
        JoinMore(attributes, [a], ReadAttrs(From(b, cursor + n)));
        attributes := attributes + [a];
        cursor := cursor + n;
      }
    }
    AttrsEnd(b, cursor);
    JoinDone(attributes);
    return Ok(attributes);
  }

  lemma FromStart(b: bytes)
    ensures From(b, 0) == b
  {
  }

  lemma AttrsEnd(b: bytes, i: nat)
    requires i <= |b| < i + 4
    ensures ReadAttrs(From(b, i)) == Ok([])
  {
  }

  lemma TransformsAt(count: nat, b: bytes, i: nat)
    requires count > 0 && i <= |b|
    ensures ReadTransforms(count, From(b, i))
         == if i + 8 > |b| then Err
            else
              var n := Read16(b[i + 2], b[i + 3]);
              if n < 8 || i + n > |b| then Err
              else match ReadAttrs(b[i + 8..i + n])
                   case Err => Err
                   case Ok(attributes) =>
                     Join([Transform(b[i + 4], Read16(b[i + 6], b[i + 7]), attributes)],
                          ReadTransforms(count - 1, From(b, i + n)))
  {
    FromAt(b, i);
    if i + 8 <= |b| {
      var n := Read16(b[i + 2], b[i + 3]);
      if 8 <= n && i + n <= |b| {
        FromSlice(b, i, 8, n);
      }
    }
    hide From, Read16, ReadAttrs;
  }

  method DecodeTransforms(count: nat, b: bytes) returns (r: Result<seq<Transform>>)
    ensures r == ReadTransforms(count, b)
  {
    hide ReadTransforms, From, Read16, ReadAttrs;
    FromStart(b);
    JoinNone(ReadTransforms(count, b));
    var transforms: seq<Transform> := [];
    var cursor: nat := 0;
    for i := 0 to count
      invariant cursor <= |b| && Join(transforms, ReadTransforms(count - i, From(b, cursor))) == ReadTransforms(count, b)
    {
      TransformsAt(count - i, b, cursor);
      if cursor + 8 > |b| {
        return Err;
      }
      var n := Read16(b[cursor + 2], b[cursor + 3]);
      if n < 8 || cursor + n > |b| {
        return Err;
      }
      var attributes := DecodeAttributes(b[cursor + 8..cursor + n]);
      if attributes.Err? {
        return Err;
      }
      var t := Transform(b[cursor + 4], Read16(b[cursor + 6], b[cursor + 7]), attributes.value);
      JoinMore(transforms, [t], ReadTransforms(count - i - 1, From(b, cursor + n)));
      transforms := transforms + [t];
      cursor := cursor + n;
    }
    TransformsEnd(b, cursor);
    JoinDone(transforms);
    return Ok(transforms);
  }

  lemma TransformsEnd(b: bytes, i: nat)
    requires i <= |b|
    ensures ReadTransforms(0, From(b, i)) == Ok([])
  {
  }

  method DecodeProposal(b: bytes) returns (r: Result<Proposal>)
    requires |b| >= 8
    ensures r == ReadProposal(b)
  {
    hide ReadTransforms;
    var spiLen := b[6];
    if 8 + spiLen > |b| {
      return Err;
    }
    var transforms := DecodeTransforms(b[7], b[8 + spiLen..]);
    if transforms.Err? {
      return Err;
    }
    return Ok(Proposal(b[4], b[5], b[8..8 + spiLen], transforms.value));
  }

  lemma SaAt(b: bytes, i: nat)
    requires i + 8 <= |b|
    ensures var n := Read16(b[i + 2], b[i + 3]);
      ReadSa(From(b, i))
      == if n < 8 || i + n > |b| then Err
         else match ReadProposal(b[i..i + n])
              case Err => Err
              case Ok(p) => if b[i] == 0 then Ok([p]) else Join([p], ReadSa(From(b, i + n)))
  {
    FromAt(b, i);
    var n := Read16(b[i + 2], b[i + 3]);
    if 8 <= n && i + n <= |b| {
      FromSlice(b, i, 0, n);
    }
    hide From, Read16, ReadProposal;
  }

  /** `decode_sa`: in bounds on every input, and it terminates. */
  method DecodeSa(b: bytes) returns (r: Result<seq<Proposal>>)
    ensures r == ReadSa(b)
  {
    hide ReadSa, From, Read16, ReadProposal;
    FromStart(b);
    JoinNone(ReadSa(b));
    var proposals: seq<Proposal> := [];
    var offset: nat := 0;
    while offset + 8 <= |b|
      invariant offset <= |b| && Join(proposals, ReadSa(From(b, offset))) == ReadSa(b)
    {
      SaAt(b, offset);
      var last := b[offset];
      var n := Read16(b[offset + 2], b[offset + 3]);
      if n < 8 || offset + n > |b| {
        return Err;
      }
      var p := DecodeProposal(b[offset..offset + n]);
      if p.Err? {
        return Err;
      }
      if last == 0 {
        return Ok(proposals + [p.value]);
      }
      JoinMore(proposals, [p.value], ReadSa(From(b, offset + n)));
      proposals := proposals + [p.value];
      offset := offset + n;
    }
    SaEnd(b, offset);
    JoinDone(proposals);
    return Ok(proposals);
  }

  lemma SaEnd(b: bytes, i: nat)
    requires i <= |b| < i + 8
    ensures ReadSa(From(b, i)) == Ok([])
  {
  }

  lemma SelectorsAt(count: nat, b: bytes, i: nat)
    requires count > 0 && i <= |b|
    ensures ReadSelectors(count, From(b, i))
         == if i + 8 > |b| then Err
            else
              var n := Read16(b[i + 2], b[i + 3]);
              if n < 8 || i + n > |b| then Err
              else match ReadAddresses(b[i], n, From(b, i))
                   case Err => Err
                   case Ok(addresses) =>
                     Join([TsSelector(b[i], b[i + 1], Read16(b[i + 4], b[i + 5]), Read16(b[i + 6], b[i + 7]),
                                      addresses.0, addresses.1)],
                          ReadSelectors(count - 1, From(b, i + n)))
  {
    FromAt(b, i);
    if i + 8 <= |b| {
      var n := Read16(b[i + 2], b[i + 3]);
      if 8 <= n && i + n <= |b| {
        FromSlice(b, i, 8, n);
      }
    }
    hide From, Read16, ReadAddresses;
  }

  /** The selector loop of `decode_ts`. */
  method DecodeSelectors(count: nat, b: bytes) returns (r: Result<seq<TsSelector>>)
    ensures r == ReadSelectors(count, b)
  {
    hide ReadSelectors, Read16, ReadAddresses, From;
    FromStart(b);
    JoinNone(ReadSelectors(count, b));
    var selectors: seq<TsSelector> := [];
    var offset: nat := 0;
    for i := 0 to count
      invariant offset <= |b| && Join(selectors, ReadSelectors(count - i, From(b, offset))) == ReadSelectors(count, b)
    {
      SelectorsAt(count - i, b, offset);
      if offset + 8 > |b| {
        return Err;
      }
      var n := Read16(b[offset + 2], b[offset + 3]);
      if n < 8 || offset + n > |b| {
        return Err;
      }
      FromAt(b, offset);
      var addresses := ReadAddresses(b[offset], n, From(b, offset));
      if addresses.Err? {
        return Err;
      }
      var s := TsSelector(b[offset], b[offset + 1], Read16(b[offset + 4], b[offset + 5]),
                          Read16(b[offset + 6], b[offset + 7]), addresses.value.0, addresses.value.1);
      JoinMore(selectors, [s], ReadSelectors(count - i - 1, From(b, offset + n)));
      selectors := selectors + [s];
      offset := offset + n;
    }
    SelectorsEnd(b, offset);
    JoinDone(selectors);
    return Ok(selectors);
  }

  lemma SelectorsEnd(b: bytes, i: nat)
    requires i <= |b|
    ensures ReadSelectors(0, From(b, i)) == Ok([])
  {
  }

  lemma ConfigAt(b: bytes, i: nat)
    requires i + 4 <= |b|
    ensures var n := 4 + Read16(b[i + 2], b[i + 3]);
      ReadConfig(From(b, i))
      == if i + n > |b| then Err
         else Join([Attribute(Read16(b[i], b[i + 1]) % 0x8000, b[i + 4..i + n])], ReadConfig(From(b, i + n)))
  {
    FromAt(b, i);
    var n := 4 + Read16(b[i + 2], b[i + 3]);
    if i + n <= |b| {
      FromSlice(b, i, 4, n);
    }
    hide From, Read16;
  }

  method DecodeConfig(b: bytes) returns (r: Result<seq<Attribute>>)
    ensures r == ReadConfig(b)
  {
    hide ReadConfig, Read16, From;
    FromStart(b);
    JoinNone(ReadConfig(b));
    var attributes: seq<Attribute> := [];
    var offset: nat := 0;
    while offset + 4 <= |b|
      invariant offset <= |b| && Join(attributes, ReadConfig(From(b, offset))) == ReadConfig(b)
    {
      ConfigAt(b, offset);
      var n := 4 + Read16(b[offset + 2], b[offset + 3]);
      if offset + n > |b| {
        return Err;
      }
      var a := Attribute(Read16(b[offset], b[offset + 1]) % 0x8000, b[offset + 4..offset + n]);
      JoinMore(attributes, [a], ReadConfig(From(b, offset + n)));
      attributes := attributes + [a];
      offset := offset + n;
    }
    ConfigEnd(b, offset);
    JoinDone(attributes);
    return Ok(attributes);
  }

  lemma ConfigEnd(b: bytes, i: nat)
    requires i <= |b| < i + 4
    ensures ReadConfig(From(b, i)) == Ok([])
  {
  }

  lemma SpisAt(size: u8, count: nat, b: bytes, i: nat)
    requires count > 0 && i + size <= |b|
    ensures ReadSpis(size, count, From(b, i))
         == match ReadSpi(size, b[i..i + size])
            case Err => Err
            case Ok(spi) => Join([spi], ReadSpis(size, count - 1, From(b, i + size)))
  {
    FromAt(b, i);
    FromSlice(b, i, 0, size);
    hide From, ReadSpi;
  }

  /** The SPI loop of `decode_payload`, after its length test. */
  method DecodeSpis(size: u8, count: nat, b: bytes) returns (r: Result<seq<u32>>)
    requires count * size <= |b|
    ensures r == ReadSpis(size, count, b)
  {
    hide ReadSpis, ReadSpi, From;
    FromStart(b);
    JoinNone(ReadSpis(size, count, b));
    var spis: seq<u32> := [];
    for index := 0 to count
      invariant index * size <= count * size
      invariant Join(spis, ReadSpis(size, count - index, From(b, index * size))) == ReadSpis(size, count, b)
    {
      Within(index, count, size);
      var start := index * size;
      SpisAt(size, count - index, b, start);
      var spi := ReadSpi(size, b[start..start + size]);
      if spi.Err? {
        return Err;
      }
      JoinMore(spis, [spi.value], ReadSpis(size, count - index - 1, From(b, start + size)));
      spis := spis + [spi.value];
    }
    SpisEnd(size, b, count * size);
    JoinDone(spis);
    return Ok(spis);
  }

  lemma Within(index: nat, count: nat, size: nat)
    requires index < count
    ensures index * size + size == (index + 1) * size <= count * size
  {
  }

  lemma SpisEnd(size: u8, b: bytes, i: nat)
    requires i <= |b|
    ensures ReadSpis(size, 0, From(b, i)) == Ok([])
  {
  }

  /** `decode_payload`, with its nested loops. */
  method DecodePayload(kind: u8, b: bytes, next: u8) returns (r: Result<Payload>)
    ensures r == ReadBody(kind, b, next)
  {
    hide ReadSa, ReadSelectors, ReadConfig, ReadNotify, ReadSpis, Read16;
    if kind == SA {
      var proposals := DecodeSa(b);
      return if proposals.Ok? then Ok(Sa(proposals.value)) else Err;
    } else if kind == TSI || kind == TSR {
      if |b| < 4 {
        return Err;
      }
      var selectors := DecodeSelectors(b[0], b[4..]);
      return if selectors.Ok? then Ok(Ts(kind == TSI, selectors.value)) else Err;
    } else if kind == DELETE {
      if |b| < 4 || (b[1] != 0 && b[1] != 4 && b[1] != 8) || 4 + Read16(b[2], b[3]) * b[1] > |b| {
        return Err;
      }
      var spis := DecodeSpis(b[1], Read16(b[2], b[3]), b[4..]);
      return if spis.Ok? then Ok(Delete(b[0], b[1], spis.value)) else Err;
    } else if kind == CP {
      var attributes := DecodeConfig(b);
      return if attributes.Ok? then Ok(Config(attributes.value)) else Err;
    } else {
      return ReadBody(kind, b, next);
    }
  }

  lemma ChainAt(kind: u8, b: bytes)
    requires kind != 0 && |b| >= 4
    ensures var n := Read16(b[2], b[3]);
      ReadChain(kind, b)
      == if n < 4 || n > |b| then Err
         else match ReadBody(kind, b[4..n], b[0])
              case Err => Err
              case Ok(p) => if kind == SK then if b[n..] == [] then Ok([p]) else Err else Join([p], ReadChain(b[0], b[n..]))
  {
    hide ReadBody, Read16;
  }

  /** `decode_chain`: the slice shrinks with every payload. */
  method DecodeChain(first: u8, b: bytes) returns (r: Result<seq<Payload>>)
    ensures r == ReadChain(first, b)
  {
    hide ReadChain, ReadBody, Read16;
    var kind, data := first, b;
    JoinNone(ReadChain(first, b));
    var payloads: seq<Payload> := [];
    while kind != 0
      invariant Join(payloads, ReadChain(kind, data)) == ReadChain(first, b)
      decreases |data|
    {
      if |data| < 4 {
        ChainShort(kind, data);
        return Err;
      }
      ChainAt(kind, data);
      var next := data[0];
      var n := Read16(data[2], data[3]);
      if n < 4 || n > |data| {
        return Err;
      }
      var p := DecodePayload(kind, data[4..n], next);
      if p.Err? {
        return Err;
      }
      if kind == SK {
        return if data[n..] == [] then Ok(payloads + [p.value]) else Err;
      }
      JoinMore(payloads, [p.value], ReadChain(next, data[n..]));
      payloads := payloads + [p.value];
      data := data[n..];
      kind := next;
    }
    ChainEnd(data);
    JoinDone(payloads);
    return if data == [] then Ok(payloads) else Err;
  }

  lemma ChainShort(kind: u8, b: bytes)
    requires kind != 0 && |b| < 4
    ensures ReadChain(kind, b) == Err
  {
  }

  lemma ChainEnd(b: bytes)
    ensures ReadChain(0, b) == if b == [] then Ok([]) else Err
  {
  }
}
