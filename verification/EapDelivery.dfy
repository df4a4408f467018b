/** End-to-end delivery of a fragmented TLS message through a peer that sees retransmissions. */
module EapDelivery {
  import opened Wire
  import opened Eap
  import opened EapTls

  /** The bodies that repeated calls of `next_tx_fragment` produce for what is queued. */
  function Fragments(t: Tx, max: nat): (r: seq<bytes>)
    requires max >= 1
    decreases if t.offset < |t.queue| then |t.queue| - t.offset else 0
  {
    if t.queue == [] || t.offset >= |t.queue| then []
    else
      var (rest, body) := TxFragment(t, max);
      [body] + Fragments(rest, max)
  }

  // ------------------------------------------------------------------ reassembly

  /** The method has collected the first `off` octets of `msg`. */
  predicate Receiving(m: Method, msg: bytes, off: nat) {
    && off <= |msg| && m.started && m.rx == msg[..off]
    && m.expected == if off == 0 then None else Some(|msg|)
  }

  function Take(msg: bytes, off: nat, max: nat): (n: nat)
    requires off <= |msg|
  {
    Min(|msg| - off, max)
  }

  lemma FragmentShape(msg: bytes, off: nat, max: nat)
    requires off < |msg| <= MAX_MESSAGE && max >= 1
    ensures var body := TxFragment(Tx(msg, off, |msg|), max).1; var n := Take(msg, off, max);
      && 1 <= n <= |msg| - off
      && ParseTls(body) == Ok((FragmentFlags(off == 0, off + n < |msg|), msg[off..off + n]))
      && (off == 0 ==> |body| >= 5 && FromBE(body[1..5]) == |msg|)
      && |body| >= 1
  {
    var n := Take(msg, off, max);
    var body := TxFragment(Tx(msg, off, |msg|), max).1;
    hide BE, FromBE;
    if off == 0 {
      Widths();
      FromBEOfBE(4, |msg|);
      assert body == [FragmentFlags(true, n < |msg|)] + BE(4, |msg|) + msg[..n];
      assert body[1..5] == BE(4, |msg|) && body[5..] == msg[..n];
    } else {
      assert body[1..] == msg[off..off + n];
    }
  }

  lemma FlagsMean(first: bool, more: bool)
    ensures var flags := FragmentFlags(first, more);
      Has(flags, FLAG_L) == first && Has(flags, FLAG_M) == more && !Has(flags, FLAG_START)
  {
  }

  /** One fragment: acknowledged while more follow, the whole message fed to TLS at the end. */
  lemma FragmentStep(e: Engine, m: Method, msg: bytes, off: nat, max: nat)
    requires Receiving(m, msg, off) && off < |msg| <= MAX_MESSAGE && max >= 1
    ensures var r := MethodStep(e, m, TxFragment(Tx(msg, off, |msg|), max).1); var n := Take(msg, off, max);
      if off + n < |msg| then
        r == (m.(rx := msg[..off + n], expected := Some(|msg|)), Ok([0]))
      else r == Feed(e, m.(rx := msg, expected := Some(|msg|)))
  {
    hide TxFragment, Feed, FromBE, BE;
    FragmentShape(msg, off, max);
    var n := Take(msg, off, max);
    FlagsMean(off == 0, off + n < |msg|);
    hide FragmentFlags, Has;
    assert msg[..off] + msg[off..off + n] == msg[..off + n];
    assert off + n == |msg| ==> msg[..off + n] == msg;
  }

  // ----------------------------------------------------------------------- runs

  /** What a peer went through: its state, its answers, how often the method ran. */
  datatype Trace = Trace(peer: Peer, actions: seq<Result<Action>>, runs: nat)

  predicate RunsMethod(p: Peer, packet: Packet) {
    packet.code == CODE_REQUEST && !IsReplay(p, packet) && packet.kind == Some(TYPE_TLS) && p.tls.Some?
  }

  function Deliver(e: Engine, p: Peer, packets: seq<Packet>): (t: Trace)
    ensures |t.actions| == |packets|
    decreases packets
  {
    if packets == [] then Trace(p, [], 0)
    else
      var (next, action) := PeerStep(e, p, packets[0]);
      var rest := Deliver(e, next, packets[1..]);
      Trace(rest.peer, [action] + rest.actions, (if RunsMethod(p, packets[0]) then 1 else 0) + rest.runs)
  }

  predicate Answered(a: Result<Action>) { a.Ok? && a.value.Respond? }

  function Again<T>(x: T, n: nat): (r: seq<T>)
    ensures |r| == n
  {
    if n == 0 then [] else [x] + Again(x, n - 1)
  }

  /** Every element followed by its repeats. */
  function Expand<T>(xs: seq<T>, reps: seq<nat>): (r: seq<T>)
    requires |xs| == |reps|
  {
    if xs == [] then [] else [xs[0]] + (Again(xs[0], reps[0]) + Expand(xs[1..], reps[1..]))
  }

  lemma ReplayStep(e: Engine, p: Peer, packet: Packet)
    requires packet.code == CODE_REQUEST && IsReplay(p, packet)
    ensures PeerStep(e, p, packet) == (p, Ok(Respond(p.lastResponse.value))) && !RunsMethod(p, packet)
  {
    hide MethodStep, Build;
  }

  /** An answered Request, received again, changes nothing and gets the identical Response. */
  lemma {:induction false} ReplayAgain(e: Engine, p: Peer, packet: Packet, n: nat, more: seq<Packet>)
    requires packet.code == CODE_REQUEST && IsReplay(p, packet)
    ensures var rest := Deliver(e, p, more);
      Deliver(e, p, Again(packet, n) + more)
      == Trace(rest.peer, Again(Ok(Respond(p.lastResponse.value)), n) + rest.actions, rest.runs)
  {
    hide RunsMethod, MethodStep, Build;
    assert PeerStep(e, p, packet) == (p, Ok(Respond(p.lastResponse.value))) && !RunsMethod(p, packet) by {
      ReplayStep(e, p, packet);
    }
    hide PeerStep, IsReplay;
    var all := Again(packet, n) + more;
    if n == 0 {
      assert all == more;
    } else {
      ReplayAgain(e, p, packet, n - 1, more);
      assert all[0] == packet && all[1..] == Again(packet, n - 1) + more;
    }
  }

  lemma AnsweredIsReplay(e: Engine, p: Peer, packet: Packet)
    requires Answered(PeerStep(e, p, packet).1)
    ensures var (next, action) := PeerStep(e, p, packet);
      packet.code == CODE_REQUEST && IsReplay(next, packet) && action == Ok(Respond(next.lastResponse.value))
  {
    hide MethodStep, Build;
  }

  /** Retransmissions are invisible: same state, same number of method runs, each repeat answered alike. */
  lemma {:induction false} RetransmissionsInvisible(e: Engine, p: Peer, packets: seq<Packet>, reps: seq<nat>)
    requires |reps| == |packets|
    requires forall a | a in Deliver(e, p, packets).actions :: Answered(a)
    ensures var once := Deliver(e, p, packets);
      Deliver(e, p, Expand(packets, reps)) == Trace(once.peer, Expand(once.actions, reps), once.runs)
    decreases packets
  {
    if packets != [] {
      var (next, action) := PeerStep(e, p, packets[0]);
      var once, rest := Deliver(e, p, packets), Deliver(e, next, packets[1..]);
      assert once.actions[0] == action && once.actions[1..] == rest.actions;
      assert action in once.actions;
      AnsweredIsReplay(e, p, packets[0]);
      hide PeerStep, IsReplay, RunsMethod;
      forall a | a in rest.actions ensures Answered(a) {
        assert a in once.actions;
      }
      RetransmissionsInvisible(e, next, packets[1..], reps[1..]);
      var later := Expand(packets[1..], reps[1..]);
      ReplayAgain(e, next, packets[0], reps[0], later);
      var all := Expand(packets, reps);
      assert all[0] == packets[0] && all[1..] == Again(packets[0], reps[0]) + later;
    }
  }

  // ------------------------------------------------------------------- delivery

  function Requests(ids: seq<u8>, bodies: seq<bytes>): (r: seq<Packet>)
    requires |ids| == |bodies|
    ensures |r| == |ids|
  {
    seq(|ids|, i requires 0 <= i < |ids| => Packet(CODE_REQUEST, ids[i], Some(TYPE_TLS), bodies[i]))
  }

  predicate ConsecutiveDiffer(ids: seq<u8>) { forall i | 0 < i < |ids| :: ids[i - 1] != ids[i] }

  /** The next Request is not mistaken for the last one. */
  predicate NewTo(p: Peer, ids: seq<u8>) {
    ids != [] && p.lastRequest.Some? ==> p.lastRequest.value.identifier != ids[0]
  }

  function ResponseTo(id: u8, body: bytes): (a: Result<Action>) {
    Ok(Respond(Build(Packet(CODE_RESPONSE, id, Some(TYPE_TLS), body))))
  }

  /** The method after it fed `msg` to TLS and sent the first fragment of the answer. */
  function Fed(e: Engine, m: Method, msg: bytes): (r: (Method, bytes))
    requires e.reply(m.calls + [msg]).Ok?
  {
    var (tx, body) := TxFragment(Queue(m.tx, e.reply(m.calls + [msg]).value), m.maxFragment);
    (m.(calls := m.calls + [msg], rx := [], expected := None, tx := tx), body)
  }

  lemma TlsRequest(e: Engine, p: Peer, id: u8, body: bytes)
    requires p.tls.Some? && NewTo(p, [id])
    ensures var packet := Packet(CODE_REQUEST, id, Some(TYPE_TLS), body);
      && RunsMethod(p, packet)
      && (var (m, r) := MethodStep(e, p.tls.value, body);
          r.Ok? ==>
            && PeerStep(e, p, packet).1 == ResponseTo(id, r.value)
            && PeerStep(e, p, packet).0.tls == Some(m)
            && PeerStep(e, p, packet).0.lastRequest == Some(packet))
  {
    hide MethodStep, Build;
  }

  /** The first fragment is answered and the rest is delivered from the state it leaves. */
  lemma DeliverFirst(e: Engine, p: Peer, ids: seq<u8>, bodies: seq<bytes>)
    requires |ids| == |bodies| > 0 && ConsecutiveDiffer(ids)
    requires p.tls.Some? && NewTo(p, ids) && MethodStep(e, p.tls.value, bodies[0]).1.Ok?
    ensures var t := Deliver(e, p, Requests(ids, bodies));
      var next := PeerStep(e, p, Packet(CODE_REQUEST, ids[0], Some(TYPE_TLS), bodies[0])).0;
      var rest := Deliver(e, next, Requests(ids[1..], bodies[1..]));
      var (m, r) := MethodStep(e, p.tls.value, bodies[0]);
      && next.tls == Some(m) && NewTo(next, ids[1..]) && ConsecutiveDiffer(ids[1..])
      && t == Trace(rest.peer, [ResponseTo(ids[0], r.value)] + rest.actions, 1 + rest.runs)
  {
    TlsRequest(e, p, ids[0], bodies[0]);
    hide MethodStep, PeerStep, RunsMethod, ResponseTo;
    var all := Requests(ids, bodies);
    assert all[1..] == Requests(ids[1..], bodies[1..]);
    forall i | 0 < i < |ids[1..]| ensures ids[1..][i - 1] != ids[1..][i] {
      assert ids[i] != ids[i + 1];
    }
  }

  /** What delivering the fragments of `msg` from offset `off` amounts to. */
  predicate Arrived(e: Engine, p: Peer, msg: bytes, ids: seq<u8>, t: Trace)
    requires p.tls.Some? && e.reply(p.tls.value.calls + [msg]).Ok?
  {
    var (m, body) := Fed(e, p.tls.value, msg);
    && t.peer.tls == Some(m) && t.runs == |ids| && |t.actions| == |ids| > 0
    && (forall i | 0 <= i < |ids| - 1 :: t.actions[i] == ResponseTo(ids[i], [0]))
    && t.actions[|ids| - 1] == ResponseTo(ids[|ids| - 1], body)
  }

  lemma {:induction false} DeliverFrom(e: Engine, p: Peer, msg: bytes, off: nat, max: nat, ids: seq<u8>)
    requires p.tls.Some? && Receiving(p.tls.value, msg, off) && off < |msg| <= MAX_MESSAGE && max >= 1
    requires |ids| == |Fragments(Tx(msg, off, |msg|), max)| && ConsecutiveDiffer(ids) && NewTo(p, ids)
    requires e.reply(p.tls.value.calls + [msg]).Ok?
    ensures Arrived(e, p, msg, ids, Deliver(e, p, Requests(ids, Fragments(Tx(msg, off, |msg|), max))))
    decreases |msg| - off
  {
    var t := Tx(msg, off, |msg|);
    var frags := Fragments(t, max);
    var (rest, body) := TxFragment(t, max);
    var m := p.tls.value;
    assert frags == [body] + Fragments(rest, max);
    FragmentStep(e, m, msg, off, max);
    var n := Take(msg, off, max);
    if off + n < |msg| {
      assert rest == Tx(msg, off + n, |msg|);
      DeliverFirst(e, p, ids, frags);
      assert frags[1..] == Fragments(rest, max);
      hide MethodStep, TxFragment, Fragments;
      var next := PeerStep(e, p, Packet(CODE_REQUEST, ids[0], Some(TYPE_TLS), body)).0;
      hide PeerStep;
      assert next.tls.value == m.(rx := msg[..off + n], expected := Some(|msg|));
      DeliverFrom(e, next, msg, off + n, max, ids[1..]);
      ArrivedOn(e, p, next, msg, ids, Deliver(e, next, Requests(ids[1..], frags[1..])));
    } else {
      assert rest == Tx([], 0, 0) && Fragments(rest, max) == [];
      assert |ids| == 1 && frags == [body];
      LastFragment(e, p, msg, ids, body);
    }
  }

  lemma LastFragment(e: Engine, p: Peer, msg: bytes, ids: seq<u8>, body: bytes)
    requires p.tls.Some? && |msg| <= MAX_MESSAGE && |ids| == 1 && NewTo(p, ids) && e.reply(p.tls.value.calls + [msg]).Ok?
    requires MethodStep(e, p.tls.value, body) == Feed(e, p.tls.value.(rx := msg, expected := Some(|msg|)))
    ensures Arrived(e, p, msg, ids, Deliver(e, p, Requests(ids, [body])))
  {
    hide MethodStep, TxFragment, PeerStep, RunsMethod, ResponseTo;
    DeliverFirst(e, p, ids, [body]);
  }

  lemma ArrivedOn(e: Engine, p: Peer, next: Peer, msg: bytes, ids: seq<u8>, rest: Trace)
    requires p.tls.Some? && next.tls.Some? && e.reply(p.tls.value.calls + [msg]).Ok? && |ids| > 1
    requires next.tls.value == p.tls.value.(rx := next.tls.value.rx, expected := next.tls.value.expected)
    requires Arrived(e, next, msg, ids[1..], rest)
    ensures Arrived(e, p, msg, ids, Trace(rest.peer, [ResponseTo(ids[0], [0])] + rest.actions, 1 + rest.runs))
  {
    hide TxFragment, ResponseTo;
    var actions := [ResponseTo(ids[0], [0])] + rest.actions;
    forall i | 0 <= i < |ids| - 1 ensures actions[i] == ResponseTo(ids[i], [0]) {
      if i > 0 {
        assert rest.actions[i - 1] == ResponseTo(ids[1..][i - 1], [0]);
      }
    }
  }

  lemma FragmentsExist(msg: bytes, max: nat)
    requires msg != [] && max >= 1
    ensures Fragments(Tx(msg, 0, |msg|), max) != []
  {
  }

  /** Any message of 1 to 65535 octets, cut up at any fragment size, sent in Requests whose consecutive
      identifiers differ and each repeated any number of times, is fed to TLS exactly once and whole. The
      method runs once per distinct Request, and every repeat gets the Response of the original. */
  lemma EndToEnd(e: Engine, p: Peer, msg: bytes, max: nat, ids: seq<u8>, reps: seq<nat>)
    requires 1 <= |msg| <= MAX_MESSAGE && max >= 1
    requires p.tls.Some? && Receiving(p.tls.value, msg, 0) && e.reply(p.tls.value.calls + [msg]).Ok?
    requires |ids| == |reps| == |Fragments(Tx(msg, 0, |msg|), max)| && ConsecutiveDiffer(ids) && NewTo(p, ids)
    ensures var requests := Requests(ids, Fragments(Tx(msg, 0, |msg|), max));
      var once := Deliver(e, p, requests);
      && Arrived(e, p, msg, ids, once)
      && Deliver(e, p, Expand(requests, reps)) == Trace(once.peer, Expand(once.actions, reps), |ids|)
  {
    FragmentsExist(msg, max);
    hide Fragments, TxFragment;
    var requests := Requests(ids, Fragments(Tx(msg, 0, |msg|), max));
    DeliverFrom(e, p, msg, 0, max, ids);
    var once := Deliver(e, p, requests);
    forall a | a in once.actions ensures Answered(a) {
      var i :| 0 <= i < |once.actions| && once.actions[i] == a;
      assert i < |ids| - 1 ==> a == ResponseTo(ids[i], [0]);
    }
    RetransmissionsInvisible(e, p, requests, reps);
  }

  // ------------------------------------------------------------------- outgoing

  /** Every acknowledgement draws the next fragment of the answer, in order, until none is left. */
  lemma {:induction false} AcksDrawFragments(e: Engine, p: Peer, ids: seq<u8>)
    requires p.tls.Some? && p.tls.value.started && p.tls.value.maxFragment >= 1 && ConsecutiveDiffer(ids) && NewTo(p, ids)
    requires |ids| == |Fragments(p.tls.value.tx, p.tls.value.maxFragment)|
    ensures var t := Deliver(e, p, Requests(ids, Again([0], |ids|)));
      var frags := Fragments(p.tls.value.tx, p.tls.value.maxFragment);
      && t.peer.tls.Some? && t.runs == |ids| && t.peer.tls.value.calls == p.tls.value.calls
      && Fragments(t.peer.tls.value.tx, p.tls.value.maxFragment) == []
      && forall i | 0 <= i < |ids| :: t.actions[i] == ResponseTo(ids[i], frags[i])
    decreases |ids|
  {
    var m := p.tls.value;
    var frags := Fragments(m.tx, m.maxFragment);
    if ids != [] {
      var (rest, body) := TxFragment(m.tx, m.maxFragment);
      assert frags == [body] + Fragments(rest, m.maxFragment);
      assert MethodStep(e, m, [0]) == (m.(tx := rest), Ok(body));
      hide MethodStep, TxFragment, Fragments, PeerStep, ResponseTo;
      DeliverFirst(e, p, ids, Again([0], |ids|));
      assert Again([0], |ids|)[1..] == Again([0], |ids[1..]|);
      var next := PeerStep(e, p, Packet(CODE_REQUEST, ids[0], Some(TYPE_TLS), [0])).0;
      AcksDrawFragments(e, next, ids[1..]);
      var later := Deliver(e, next, Requests(ids[1..], Again([0], |ids[1..]|)));
      forall i | 0 < i < |ids|
        ensures Deliver(e, p, Requests(ids, Again([0], |ids|))).actions[i] == ResponseTo(ids[i], frags[i])
      {
        assert later.actions[i - 1] == ResponseTo(ids[1..][i - 1], frags[1..][i - 1]);
      }
    }
  }
}
