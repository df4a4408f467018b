/** What the EAP peer concludes and answers, and what its method hands to TLS, over whole conversations. */
module EapResults {
  import opened Wire
  import opened Eap
  import opened EapTls
  import opened EapDelivery

  // --------------------------------------------------------------- one packet

  /** A result packet belongs to the last Request, if there was one. */
  predicate Timely(last: Option<Packet>, packet: Packet) {
    last.Some? ==> last.value.identifier == packet.identifier
  }

  /** The peer reports success exactly for an EAP-Success that belongs to the last Request and, once TLS was started,
      only after its success indication; it reports failure exactly for an EAP-Failure that belongs to the last
      Request. Neither packet changes the peer, and no other packet draws either report. */
  lemma ResultExact(e: Engine, p: Peer, packet: Packet)
    ensures var (next, action) := PeerStep(e, p, packet);
      && (action == Ok(Success) <==>
          && packet.code == 3 && Timely(p.lastRequest, packet)
          && (p.tls.Some? && p.tls.value.started ==> e.indicated(p.tls.value.calls)))
      && (action == Ok(Failure) <==> packet.code == 4 && Timely(p.lastRequest, packet))
      && (packet.code == 3 || packet.code == 4 ==> next == p && action.Ok? && !action.value.Respond?)
  {
    hide MethodStep, Build;
  }

  /** What a Request that is not a retransmission is answered with; `None` for no answer. */
  function Expected(p: Peer, packet: Packet, fromTls: Result<bytes>): (r: Option<Packet>) {
    if packet.kind.None? || packet.kind == Some(TYPE_NAK) then None
    else if packet.kind == Some(TYPE_IDENTITY) then Some(Packet(2, packet.identifier, packet.kind, p.identity))
    else if packet.kind == Some(TYPE_NOTIFICATION) then Some(Packet(2, packet.identifier, packet.kind, []))
    else if packet.kind != Some(TYPE_TLS) || p.tls.None? then
      Some(Packet(2, packet.identifier, Some(TYPE_NAK), if p.tls.Some? then [TYPE_TLS] else []))
    else if fromTls.Ok? then Some(Packet(2, packet.identifier, packet.kind, fromTls.value)) else None
  }

  /** The authenticator reads the answer to a Request as a Response with that Request's identifier: the identity, an
      empty acknowledgement, the method's own answer, or a Nak naming what the peer can do. */
  lemma AnswerRead(e: Engine, p: Peer, packet: Packet, trail: bytes)
    requires packet.code == CODE_REQUEST && !IsReplay(p, packet)
    ensures var fromTls := if p.tls.Some? then MethodStep(e, p.tls.value, packet.body).1 else Err;
      var want := Expected(p, packet, fromTls); var (next, action) := PeerStep(e, p, packet);
      && (Answered(action) <==> want.Some?)
      && (want.Some? ==>
          && next.lastRequest == Some(packet) && next.lastResponse == Some(action.value.packet)
          && (Parse(action.value.packet + trail) == want <==> 5 + |want.value.body| <= 0xffff))
      && (want.None? ==> next.lastRequest == p.lastRequest && next.lastResponse == p.lastResponse)
      && (want.None? ==> action == if packet.kind == Some(TYPE_NAK) then Ok(Wait) else Err)
  {
    var fromTls := if p.tls.Some? then MethodStep(e, p.tls.value, packet.body).1 else Err;
    var want := Expected(p, packet, fromTls);
    hide MethodStep, Build, Parse;
    if want.Some? {
      PacketRoundTrip(want.value, trail);
    }
  }

  // ------------------------------------------------------------- conversations

  lemma {:induction false} DeliverOn(e: Engine, p: Peer, packets: seq<Packet>, packet: Packet)
    ensures var t := Deliver(e, p, packets); var (next, action) := PeerStep(e, t.peer, packet);
      && Deliver(e, p, packets + [packet]).peer == next
      && Deliver(e, p, packets + [packet]).actions == t.actions + [action]
    decreases packets
  {
    hide PeerStep;
    var all := packets + [packet];
    if packets == [] {
      assert all[0] == packet && all[1..] == [];
      assert Deliver(e, PeerStep(e, p, packet).0, []).actions == [];
    } else {
      assert all[0] == packets[0] && all[1..] == packets[1..] + [packet];
      DeliverOn(e, PeerStep(e, p, packets[0]).0, packets[1..], packet);
    }
  }

  /** The Request that was answered last. */
  function LastAnswered(packets: seq<Packet>, actions: seq<Result<Action>>): (r: Option<Packet>)
    requires |packets| == |actions|
  {
    if packets == [] then None
    else if Answered(actions[|actions| - 1]) then Some(packets[|packets| - 1])
    else LastAnswered(packets[..|packets| - 1], actions[..|actions| - 1])
  }

  /** An EAP-TLS Request with the Start bit, well formed. */
  predicate IsStart(packet: Packet) {
    && packet.code == 1 && packet.kind == Some(13) && packet.body != []
    && packet.body[0] % 64 >= 32 && (packet.body[0] >= 128 ==> |packet.body| >= 5)
  }

  predicate StartIn(packets: seq<Packet>) { exists packet | packet in packets :: IsStart(packet) }

  /** The first two octets of the remembered Response answer the remembered Request. */
  predicate Answers(response: bytes, request: Packet) {
    && |response| >= 5 && response[0] == 2 && response[1] == request.identifier
    && request.kind.Some? && (response[4] == request.kind.value || response[4] == TYPE_NAK)
  }

  /** The peer's memory reflects the conversation. */
  predicate Remembers(p: Peer, packets: seq<Packet>, actions: seq<Result<Action>>)
    requires |packets| == |actions|
  {
    && p.tls.Some? && p.lastRequest == LastAnswered(packets, actions)
    && (p.tls.value.started <==> StartIn(packets))
    && (p.lastRequest.Some? <==> p.lastResponse.Some?)
    && (p.lastRequest.Some? ==> Answers(p.lastResponse.value, p.lastRequest.value))
    && (p.lastRequest.Some? && IsStart(p.lastRequest.value) ==> p.tls.value.started)
  }

  lemma StartOn(packets: seq<Packet>, packet: Packet)
    ensures StartIn(packets + [packet]) <==> StartIn(packets) || IsStart(packet)
  {
    var all := packets + [packet];
    assert packet in all;
    if StartIn(packets) {
      var x :| x in packets && IsStart(x);
      assert x in all;
    }
    if StartIn(all) {
      var x :| x in all && IsStart(x);
      assert x in packets || x == packet;
    }
  }

  lemma StartsMethod(e: Engine, m: Method, body: bytes)
    ensures var packet := Packet(1, 0, Some(13), body);
      MethodStep(e, m, body).0.started == (m.started || IsStart(packet))
    ensures MethodStep(e, m, body).1.Ok? ==> MethodStep(e, m, body).0.started
  {
    hide BE, FromBE;
  }

  lemma AnswerShape(packet: Packet, kind: u8, body: bytes)
    requires packet.kind.Some? && (kind == packet.kind.value || kind == TYPE_NAK)
    ensures Answers(Build(Packet(CODE_RESPONSE, packet.identifier, Some(kind), body)), packet)
  {
    BuildLayout(Packet(CODE_RESPONSE, packet.identifier, Some(kind), body), []);
    hide BE;
  }

  lemma LastOn(packets: seq<Packet>, actions: seq<Result<Action>>, packet: Packet, action: Result<Action>)
    requires |packets| == |actions|
    ensures LastAnswered(packets + [packet], actions + [action])
         == if Answered(action) then Some(packet) else LastAnswered(packets, actions)
  {
    assert (packets + [packet])[..|packets|] == packets && (actions + [action])[..|actions|] == actions;
  }

  /** What one packet does to the peer's memory. */
  lemma MemoryStep(e: Engine, p: Peer, packet: Packet)
    requires p.tls.Some?
    requires p.lastRequest.Some? <==> p.lastResponse.Some?
    requires p.lastRequest.Some? ==> Answers(p.lastResponse.value, p.lastRequest.value)
    requires p.lastRequest.Some? && IsStart(p.lastRequest.value) ==> p.tls.value.started
    ensures var (next, action) := PeerStep(e, p, packet);
      && next.tls.Some? && next.tls.value.started == (p.tls.value.started || IsStart(packet))
      && next.lastRequest == (if Answered(action) then Some(packet) else p.lastRequest)
      && (next.lastRequest.Some? <==> next.lastResponse.Some?)
      && (next.lastRequest.Some? ==> Answers(next.lastResponse.value, next.lastRequest.value))
      && (Answered(action) ==> packet.code == 1 && action.value.packet == next.lastResponse.value)
  {
    hide MethodStep, Build, Answers;
    if packet.code == CODE_REQUEST && !IsReplay(p, packet) && packet.kind.Some? {
      StartsMethod(e, p.tls.value, packet.body);
      var kind := packet.kind.value;
      var body := if kind == TYPE_IDENTITY then p.identity else if kind == TYPE_NOTIFICATION then []
                  else if kind == TYPE_TLS && MethodStep(e, p.tls.value, packet.body).1.Ok?
                  then MethodStep(e, p.tls.value, packet.body).1.value else [TYPE_TLS];
      AnswerShape(packet, kind, body);
      AnswerShape(packet, TYPE_NAK, body);
    }
  }

  lemma {:induction false} Memory(e: Engine, p: Peer, packets: seq<Packet>)
    requires p.tls.Some? && !p.tls.value.started && p.lastRequest.None? && p.lastResponse.None?
    ensures var t := Deliver(e, p, packets); Remembers(t.peer, packets, t.actions)
  {
    hide PeerStep, Answers, IsStart;
    if packets == [] {
      assert Deliver(e, p, packets) == Trace(p, [], 0);
      assert !StartIn(packets);
    } else {
      var front, packet := packets[..|packets| - 1], packets[|packets| - 1];
      assert packets == front + [packet];
      Memory(e, p, front);
      var t := Deliver(e, p, front);
      DeliverOn(e, p, front, packet);
      var (next, action) := PeerStep(e, t.peer, packet);
      MemoryStep(e, t.peer, packet);
      LastOn(front, t.actions, packet, action);
      StartOn(front, packet);
      hide Deliver, LastAnswered, StartIn;
    }
  }

  /** Over every conversation of a peer with a fresh TLS method, at every packet: success is reported exactly for an
      EAP-Success whose identifier is that of the Request answered last and, if any Start arrived before, only once TLS
      indicated success on what it had been fed; failure exactly for an EAP-Failure with that identifier. */
  lemma ResultsInRun(e: Engine, p: Peer, packets: seq<Packet>, i: nat)
    requires p.tls.Some? && !p.tls.value.started && p.lastRequest.None? && p.lastResponse.None? && i < |packets|
    ensures var t := Deliver(e, p, packets[..i]); var action := Deliver(e, p, packets).actions[i];
      && t.peer.tls.Some?
      && (action == Ok(Success) <==>
          && packets[i].code == 3 && Timely(LastAnswered(packets[..i], t.actions), packets[i])
          && (StartIn(packets[..i]) ==> e.indicated(t.peer.tls.value.calls)))
      && (action == Ok(Failure) <==>
          packets[i].code == 4 && Timely(LastAnswered(packets[..i], t.actions), packets[i]))
  {
    hide PeerStep, LastAnswered, Answers, StartIn;
    Memory(e, p, packets[..i]);
    ActionAt(e, p, packets, i);
    ResultExact(e, Deliver(e, p, packets[..i]).peer, packets[i]);
    hide Deliver;
  }

  /** Over every conversation each answer is a Response to the Request it answers: same identifier, its type or a Nak,
      retransmissions included; nothing but a Request is answered. */
  lemma AnswersInRun(e: Engine, p: Peer, packets: seq<Packet>, i: nat)
    requires p.tls.Some? && !p.tls.value.started && p.lastRequest.None? && p.lastResponse.None? && i < |packets|
    ensures var action := Deliver(e, p, packets).actions[i];
      Answered(action) ==> packets[i].code == 1 && Answers(action.value.packet, packets[i])
  {
    hide PeerStep, LastAnswered, Answers, StartIn;
    Memory(e, p, packets[..i]);
    ActionAt(e, p, packets, i);
    MemoryStep(e, Deliver(e, p, packets[..i]).peer, packets[i]);
    hide Deliver;
  }

  lemma {:induction false} ActionAt(e: Engine, p: Peer, packets: seq<Packet>, i: nat)
    requires i < |packets|
    ensures Deliver(e, p, packets).actions[i] == PeerStep(e, Deliver(e, p, packets[..i]).peer, packets[i]).1
    decreases packets
  {
    hide PeerStep;
    var front := packets[..|packets| - 1];
    assert packets == front + [packets[|packets| - 1]];
    DeliverOn(e, p, front, packets[|packets| - 1]);
    if i < |front| {
      assert front[..i] == packets[..i];
      ActionAt(e, p, front, i);
    }
    hide Deliver;
  }

  // --------------------------------------------------- what TLS is handed

  function Flat(messages: seq<bytes>): (b: bytes) {
    if messages == [] then [] else Flat(messages[..|messages| - 1]) + messages[|messages| - 1]
  }

  /** The TLS data a Request body carries. */
  function Data(body: bytes): (b: bytes) {
    if body == [] then [] else if body[0] < 128 then body[1..] else if |body| < 5 then [] else body[5..]
  }

  function Total(body: bytes): (n: nat) { if |body| < 5 then 0 else FromBE(body[1..5]) }

  predicate IsAck(body: bytes) { body == [] || body == [0] }

  predicate Announces(body: bytes) { body != [] && body[0] >= 128 }

  predicate MoreFollow(body: bytes) { body != [] && body[0] % 128 >= 64 }

  /** The announced length of the message in progress once `body` is in. */
  function Announced(m: Method, body: bytes): (n: Option<nat>) {
    if Announces(body) then Some(Total(body)) else if m.expected.Some? then Some(m.expected.value) else None
  }

  /** A length that may be announced: at most 65535 and the one announced before. */
  predicate FairLength(m: Method, body: bytes) {
    Announces(body) ==> |body| >= 5 && Total(body) <= 65535 && (m.expected.Some? ==> m.expected.value == Total(body))
  }

  /** A fragment that fits what was announced, and completes it if it is the last. */
  predicate InSequence(m: Method, body: bytes) {
    var n, size := Announced(m, body), |m.rx| + |Data(body)|;
    size <= (if n.Some? then n.value else 65535) && (!MoreFollow(body) && n.Some? ==> size == n.value)
  }

  /** What goes out next of the queued fragments, and what stays. */
  predicate Sends(waiting: seq<bytes>, body: bytes, left: seq<bytes>) {
    if waiting == [] then body == [0] && left == [] else body == waiting[0] && left == waiting[1..]
  }

  /** The fragments to send once TLS answered: its output, or what was still waiting if it had none. */
  function Waiting(m: Method, output: bytes): (r: seq<bytes>)
    requires m.maxFragment >= 1
  {
    if output == [] then Fragments(m.tx, m.maxFragment) else Fragments(Tx(output, 0, |output|), m.maxFragment)
  }

  lemma SendIs(m: Method)
    requires m.maxFragment >= 1
    ensures var (next, result) := SendNext(m);
      result.Ok? && Sends(Fragments(m.tx, m.maxFragment), result.value, Fragments(next.tx, next.maxFragment))
      && next == m.(tx := next.tx)
  {
    hide BE;
  }

  /** What the method does with one Request body: an acknowledgement draws the next fragment; a fragment in sequence is
      collected, and the last one hands TLS exactly the collected octets and starts sending its answer; a length that
      cannot be is refused, and a fragment out of sequence drops what was collected. */
  lemma MethodExact(e: Engine, m: Method, body: bytes)
    requires m.maxFragment >= 1
    ensures var (next, result) := MethodStep(e, m, body);
      var all := m.rx + Data(body); var same := next.calls == m.calls && next.rx == m.rx && next.expected == m.expected;
      && next.maxFragment == m.maxFragment
      && (!next.started || (!IsAck(body) && !FairLength(m, body)) ==> result == Err && same && next.tx == m.tx)
      && (next.started && IsAck(body) ==>
            result.Ok? && same && Sends(Fragments(m.tx, m.maxFragment), result.value, Fragments(next.tx, m.maxFragment)))
      && (next.started && !IsAck(body) && FairLength(m, body) ==>
            if !InSequence(m, body) then
              result == Err && next.calls == m.calls && next.rx == [] && next.expected == None && next.tx == m.tx
            else if MoreFollow(body) then
              result == Ok([0]) && next.calls == m.calls && next.rx == all && next.expected == Announced(m, body) && next.tx == m.tx
            else
              && next.calls == m.calls + [all] && next.rx == [] && next.expected == None
              && (var reply := e.reply(m.calls + [all]);
                  && (result.Ok? <==> reply.Ok?)
                  && (reply.Ok? ==> Sends(Waiting(m, reply.value), result.value, Fragments(next.tx, m.maxFragment)))))
  {
    hide FromBE, BE, Sends, Fragments, SendNext, Has;
    FlagBits(body);
    var all := m.rx + Data(body);
    var fed := Method(true, m.calls + [all], [], None, m.tx, m.maxFragment);
    SendIs(m.(started := true));
    var reply := e.reply(m.calls + [all]);
    if reply.Ok? {
      SendIs(fed.(tx := Queue(m.tx, reply.value)));
      assert Fragments(Queue(m.tx, reply.value), m.maxFragment) == Waiting(m, reply.value);
    }
  }

  lemma FlagBits(body: bytes)
    ensures body != [] ==>
      && (Has(body[0], FLAG_L) <==> body[0] >= 128) && (Has(body[0], FLAG_M) <==> body[0] % 128 >= 64)
      && (Has(body[0], FLAG_START) <==> body[0] % 64 >= 32)
  {
  }

  lemma FlatOn(messages: seq<bytes>, message: bytes)
    ensures Flat(messages + [message]) == Flat(messages) + message
  {
    assert (messages + [message])[..|messages|] == messages;
  }

  /** The method over a series of Request bodies, and whether it refused none. */
  function MethodRun(e: Engine, m: Method, bodies: seq<bytes>): (r: (Method, bool)) {
    if bodies == [] then (m, true)
    else
      var (before, fine) := MethodRun(e, m, bodies[..|bodies| - 1]);
      var (after, result) := MethodStep(e, before, bodies[|bodies| - 1]);
      (after, fine && result.Ok?)
  }

  /** The data of the Request bodies, in order. */
  function AllData(bodies: seq<bytes>): (b: bytes) {
    if bodies == [] then [] else AllData(bodies[..|bodies| - 1]) + Data(bodies[|bodies| - 1])
  }

  lemma StepConserves(e: Engine, m: Method, body: bytes)
    requires m.maxFragment >= 1 && MethodStep(e, m, body).1.Ok?
    ensures var next := MethodStep(e, m, body).0; Flat(next.calls) + next.rx == Flat(m.calls) + m.rx + Data(body)
  {
    hide MethodStep, Flat, InSequence, Announced, FairLength, Sends, Fragments, Waiting;
    MethodExact(e, m, body);
    FlatOn(m.calls, m.rx + Data(body));
    var next := MethodStep(e, m, body).0;
    assert Flat(m.calls) + m.rx + [] == Flat(m.calls) + m.rx;
    assert Flat(m.calls) + (m.rx + Data(body)) + [] == Flat(m.calls) + m.rx + Data(body);
    assert Flat(m.calls) + (m.rx + Data(body)) == Flat(m.calls) + m.rx + Data(body);
  }

  lemma SameMax(e: Engine, m: Method, body: bytes)
    ensures MethodStep(e, m, body).0.maxFragment == m.maxFragment
  {
    hide FromBE, BE, TxFragment, Has;
  }

  /** No octet is lost, repeated or reordered: while no Request is refused, what TLS was handed and what is still being
      collected are together the data of the Requests, in order. */
  lemma {:induction false} OctetsConserved(e: Engine, m: Method, bodies: seq<bytes>)
    requires m.maxFragment >= 1 && MethodRun(e, m, bodies).1
    ensures MethodRun(e, m, bodies).0.maxFragment == m.maxFragment
    ensures var r := MethodRun(e, m, bodies).0; Flat(r.calls) + r.rx == Flat(m.calls) + m.rx + AllData(bodies)
  {
    hide MethodStep, Flat, Data;
    if bodies == [] {
      assert Flat(m.calls) + m.rx + [] == Flat(m.calls) + m.rx;
    } else {
      var front, body := bodies[..|bodies| - 1], bodies[|bodies| - 1];
      OctetsConserved(e, m, front);
      var before := MethodRun(e, m, front).0;
      StepConserves(e, before, body);
      SameMax(e, before, body);
      assert Flat(m.calls) + m.rx + AllData(front) + Data(body) == Flat(m.calls) + m.rx + (AllData(front) + Data(body));
    }
  }
}
