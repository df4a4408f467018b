/** The EAP-TLS method and the EAP peer above it (src/core/eap_tls.rs, src/core/eap.rs; section 2.1.5 of
    RFC 5216, section 4.1 of RFC 3748). */
module EapTls {
  import opened Wire
  import opened Eap

  const FLAG_L: u8 := 128
  const FLAG_M: u8 := 64
  const FLAG_START: u8 := 32
  const MAX_MESSAGE: nat := 65535

  predicate Has(flags: u8, flag: u8)
    requires flag > 0
  {
    flags / flag % 2 == 1
  }

  /** The TLS connection as a sink: what it answers depends on the messages fed to it so far. */
  datatype Engine = Engine(reply: seq<bytes> -> Result<bytes>, indicated: seq<bytes> -> bool)

  /** TLS octets waiting to be sent and how many of them went out. */
  datatype Tx = Tx(queue: bytes, offset: nat, total: nat)

  datatype Method = Method(
    started: bool, calls: seq<bytes>, rx: bytes, expected: Option<u32>, tx: Tx, maxFragment: nat)

  function TlsMessage(data: bytes): (b: bytes) {
    if data == [] then [0] else [FLAG_L] + BE(4, |data| % 0x1_0000_0000) + data
  }

  function ParseTls(body: bytes): (r: Result<(u8, bytes)>) {
    if body == [] then Ok((0, []))
    else if !Has(body[0], FLAG_L) then Ok((body[0], body[1..]))
    else if |body| < 5 then Err
    else Ok((body[0], body[5..]))
  }

  function Min(a: nat, b: nat): (m: nat) { if a < b then a else b }

  function FragmentFlags(first: bool, more: bool): (flags: u8) {
    (if first then FLAG_L else 0) + (if more then FLAG_M else 0)
  }

  /** `next_tx_fragment`: the body to send and what is left to send. */
  function TxFragment(t: Tx, max: nat): (r: (Tx, bytes)) {
    if t.queue == [] || t.offset >= |t.queue| then (t, TlsMessage([]))
    else
      var remaining := |t.queue| - t.offset;
      var take := Min(remaining, max);
      var more := take < remaining;
      var body := [FragmentFlags(t.offset == 0, more)]
                  + (if t.offset == 0 then BE(4, t.total % 0x1_0000_0000) else [])
                  + t.queue[t.offset..t.offset + take];
      (if more then t.(offset := t.offset + take) else Tx([], 0, 0), body)
  }

  function Queue(t: Tx, output: bytes): (r: Tx) {
    if output == [] then t else Tx(output, 0, |output|)
  }

  function SendNext(m: Method): (r: (Method, Result<bytes>)) {
    var (tx, body) := TxFragment(m.tx, m.maxFragment);
    (m.(tx := tx), Ok(body))
  }

  /** Hands a complete message to TLS and starts sending its answer. */
  function Feed(e: Engine, m: Method): (r: (Method, Result<bytes>)) {
    var fed := m.(calls := m.calls + [m.rx], rx := [], expected := None);
    match e.reply(fed.calls)
    case Err => (fed, Err)
    case Ok(output) => SendNext(fed.(tx := Queue(fed.tx, output)))
  }

  /** A fragment whose announced length has been accepted. */
  function Collect(e: Engine, m: Method, flags: u8, data: bytes): (r: (Method, Result<bytes>)) {
    var dropped := m.(rx := [], expected := None);
    if |m.rx| + |data| > (if m.expected.Some? then m.expected.value else MAX_MESSAGE) then (dropped, Err)
    else
      var grown := m.(rx := m.rx + data);
      if Has(flags, FLAG_M) then (grown, Ok(TlsMessage([])))
      else if grown.expected.Some? && |grown.rx| != grown.expected.value then (dropped, Err)
      else Feed(e, grown)
  }

  /** The L bit announces the length of the whole message. */
  function Announce(e: Engine, m: Method, flags: u8, len: nat, data: bytes): (r: (Method, Result<bytes>)) {
    if !Has(flags, FLAG_L) then Collect(e, m, flags, data)
    else if len > MAX_MESSAGE then (m, Err)
    else if m.expected.Some? && m.expected.value != len then (m, Err)
    else Collect(e, m.(expected := Some(len)), flags, data)
  }

  /** `handle_request`: the Response body, or an error. */
  function MethodStep(e: Engine, m: Method, body: bytes): (r: (Method, Result<bytes>)) {
    match ParseTls(body)
    case Err => (m, Err)
    case Ok((flags, data)) =>
      var m := m.(started := m.started || Has(flags, FLAG_START));
      if !m.started then (m, Err)
      else if flags == 0 && data == [] then SendNext(m)
      else Announce(e, m, flags, if |body| >= 5 then FromBE(body[1..5]) else 0, data)
  }

  // -------------------------------------------------------------------- peer

  datatype Action = Respond(packet: bytes) | Success | Failure | Wait

  datatype Peer = Peer(identity: bytes, tls: Option<Method>, lastRequest: Option<Packet>, lastResponse: Option<bytes>)

  /** The types offered in a Nak. */
  function Supported(tls: Option<Method>): (types: bytes) { if tls.Some? then [TYPE_TLS] else [] }

  predicate IsReplay(p: Peer, packet: Packet) {
    p.lastRequest == Some(packet) && p.lastResponse.Some?
  }

  function Answer(p: Peer, packet: Packet, kind: u8, body: bytes): (r: (Peer, Result<Action>)) {
    var response := Build(Packet(CODE_RESPONSE, packet.identifier, Some(kind), body));
    (p.(lastRequest := Some(packet), lastResponse := Some(response)), Ok(Respond(response)))
  }

  function HandleResult(e: Engine, p: Peer, packet: Packet): (a: Action) {
    if p.lastRequest.Some? && p.lastRequest.value.identifier != packet.identifier then Wait
    else if packet.code == CODE_FAILURE then Failure
    else if p.tls.Some? && p.tls.value.started && !e.indicated(p.tls.value.calls) then Wait
    else Success
  }

  function PeerStep(e: Engine, p: Peer, packet: Packet): (r: (Peer, Result<Action>)) {
    if packet.code == CODE_SUCCESS || packet.code == CODE_FAILURE then (p, Ok(HandleResult(e, p, packet)))
    else if packet.code != CODE_REQUEST then (p, Ok(Wait))
    else if IsReplay(p, packet) then (p, Ok(Respond(p.lastResponse.value)))
    else
      match packet.kind
      case None => (p, Err)
      case Some(kind) =>
        if kind == TYPE_IDENTITY then Answer(p, packet, TYPE_IDENTITY, p.identity)
        else if kind == TYPE_NOTIFICATION then Answer(p, packet, TYPE_NOTIFICATION, [])
        else if kind == TYPE_NAK then (p, Ok(Wait))
        else if kind == TYPE_TLS && p.tls.Some? then
          var (m, result) := MethodStep(e, p.tls.value, packet.body);
          match result
          case Err => (p.(tls := Some(m)), Err)
          case Ok(body) => Answer(p.(tls := Some(m)), packet, TYPE_TLS, body)
        else Answer(p, packet, TYPE_NAK, Supported(p.tls))
  }

  // ----------------------------------------------------------------- classes

  class EapTlsMethod {
    const engine: Engine
    var started: bool
    /** What has been fed to the TLS connection, one entry per complete message. */
    var calls: seq<bytes>
    var rxFragments: bytes
    var rxExpectedLen: Option<u32>
    var txQueue: bytes
    var txOffset: nat
    var txTotal: nat
    const maxTlsFragment: nat

    function Value(): (m: Method)
      reads this
    {
      Method(started, calls, rxFragments, rxExpectedLen, Tx(txQueue, txOffset, txTotal), maxTlsFragment)
    }

    constructor (e: Engine)
      ensures engine == e && Value() == Method(false, [], [], None, Tx([], 0, 0), 1200)
    {
      engine, maxTlsFragment := e, 1200;
      started, calls, rxFragments, rxExpectedLen := false, [], [], None;
      txQueue, txOffset, txTotal := [], 0, 0;
    }

    method NextTxFragment() returns (body: bytes)
      modifies this
      ensures var (tx, b) := TxFragment(old(Value()).tx, maxTlsFragment); body == b && Value() == old(Value()).(tx := tx)
    {
      hide BE;
      if txQueue == [] || txOffset >= |txQueue| {
        return TlsMessage([]);
      }
      var remaining := |txQueue| - txOffset;
      var take := if remaining < maxTlsFragment then remaining else maxTlsFragment;
      var first := txOffset == 0;
      var more := take < remaining;
      body := [FragmentFlags(first, more)];
      if first {
        body := body + BE(4, txTotal % 0x1_0000_0000);
      }
      body := body + txQueue[txOffset..txOffset + take];
      txOffset := txOffset + take;
      if !more {
        txQueue, txOffset, txTotal := [], 0, 0;
      }
    }

    method QueueTlsOutput(output: bytes)
      modifies this
      ensures Value() == old(Value()).(tx := Queue(old(Value()).tx, output))
    {
      if output == [] {
        return;
      }
      txQueue, txOffset, txTotal := output, 0, |output|;
    }

    /** Feeds a complete message to TLS and answers with the first fragment of its output. */
    method Complete() returns (r: Result<bytes>)
      modifies this
      ensures (Value(), r) == Feed(engine, old(Value()))
    {
      hide TxFragment;
      rxExpectedLen := None;
      calls, rxFragments := calls + [rxFragments], [];
      var output := engine.reply(calls);
      if output.Err? {
        return Err;
      }
      QueueTlsOutput(output.value);
      var body := NextTxFragment();
      return Ok(body);
    }

    method HandleRequest(body: bytes) returns (r: Result<bytes>)
      modifies this
      ensures (Value(), r) == MethodStep(engine, old(Value()), body)
    {
      hide Feed, TxFragment, FromBE;
      var parsed := ParseTls(body);
      if parsed.Err? {
        return Err;
      }
      var (flags, data) := parsed.value;
      if Has(flags, FLAG_START) && !started {
        started := true;
      }
      if !started {
        return Err;
      }
      if flags == 0 && data == [] {
        var next := NextTxFragment();
        return Ok(next);
      }
      if Has(flags, FLAG_L) {
        var len := FromBE(body[1..5]);
        if len > MAX_MESSAGE {
          return Err;
        }
        if rxExpectedLen.Some? && rxExpectedLen.value != len {
          return Err;
        }
        rxExpectedLen := Some(len);
      }
      var limit := if rxExpectedLen.Some? then rxExpectedLen.value else MAX_MESSAGE;
      if |rxFragments| + |data| > limit {
        rxFragments, rxExpectedLen := [], None;
        return Err;
      }
      rxFragments := rxFragments + data;
      var complete := !Has(flags, FLAG_M) && (rxExpectedLen.None? || |rxFragments| == rxExpectedLen.value);
      if !complete {
        if !Has(flags, FLAG_M) {
          rxFragments, rxExpectedLen := [], None;
          return Err;
        }
        return Ok(TlsMessage([]));
      }
      r := Complete();
    }
  }

  class EapPeer {
    const engine: Engine
    const identity: bytes
    var tls: EapTlsMethod?
    var supportedTypes: bytes
    var lastRequest: Option<Packet>
    var lastResponse: Option<bytes>

    ghost predicate Valid()
      reads this, tls
    {
      (tls == null ==> supportedTypes == []) && (tls != null ==> supportedTypes == [TYPE_TLS] && tls.engine == engine)
    }

    function Value(): (p: Peer)
      reads this, tls
    {
      Peer(identity, if tls == null then None else Some(tls.Value()), lastRequest, lastResponse)
    }

    constructor (e: Engine, id: bytes)
      ensures Valid() && engine == e && Value() == Peer(id, None, None, None)
    {
      engine, identity, tls, supportedTypes, lastRequest, lastResponse := e, id, null, [], None, None;
    }

    method SetMethod(m: EapTlsMethod)
      requires Valid() && m.engine == engine
      modifies this
      ensures Valid() && tls == m && Value() == old(Value()).(tls := Some(m.Value()))
    {
      supportedTypes := [TYPE_TLS];
      tls := m;
    }

    /** Remembers the Request with its Response. */
    method Reply(packet: Packet, kind: u8, body: bytes) returns (a: Result<Action>)
      requires Valid()
      modifies this`lastRequest, this`lastResponse
      ensures Valid() && (Value(), a) == Answer(old(Value()), packet, kind, body)
    {
      var response := Build(Packet(CODE_RESPONSE, packet.identifier, Some(kind), body));
      lastRequest, lastResponse := Some(packet), Some(response);
      return Ok(Respond(response));
    }

    method HandlePacket(packet: Packet) returns (a: Result<Action>)
      requires Valid()
      modifies this, tls
      ensures Valid() && tls == old(tls) && (Value(), a) == PeerStep(engine, old(Value()), packet)
    {
      hide MethodStep, Build;
      if packet.code == CODE_SUCCESS || packet.code == CODE_FAILURE {
        if lastRequest.Some? && lastRequest.value.identifier != packet.identifier {
          return Ok(Wait);
        }
        if packet.code == CODE_SUCCESS {
          if tls != null && tls.started && !engine.indicated(tls.calls) {
            return Ok(Wait);
          }
          return Ok(Success);
        }
        return Ok(Failure);
      }
      if packet.code != CODE_REQUEST {
        return Ok(Wait);
      }
      if lastRequest == Some(packet) && lastResponse.Some? {
        return Ok(Respond(lastResponse.value));
      }
      if packet.kind.None? {
        return Err;
      }
      var kind := packet.kind.value;
      if kind == TYPE_IDENTITY {
        a := Reply(packet, TYPE_IDENTITY, identity);
      } else if kind == TYPE_NOTIFICATION {
        a := Reply(packet, TYPE_NOTIFICATION, []);
      } else if kind == TYPE_NAK {
        a := Ok(Wait);
      } else if tls != null && kind == TYPE_TLS {
        var body := tls.HandleRequest(packet.body);
        if body.Err? {
          return Err;
        }
        a := Reply(packet, kind, body.value);
      } else {
        a := Reply(packet, TYPE_NAK, supportedTypes);
      }
    }
  }
}
