// The octets and the protocol together: a socket that carries serialized messages is a channel of
// the protocol, and every delivery on it is a read of the protocol.
module Composition {
  import opened Bytes
  import opened Frames
  import opened DecoderMachine
  import opened Receiver
  import opened Network
  import opened Messages
  import opened EventLog
  import opened Protocol
  import opened Handlers

  // ---------------------------------------------------------------- messages of the protocol

  // An event without its severity, which does not survive transport.
  function Plainly(e: Event): Event { e.(llevel := Info, level := 4) }

  function AllPlainly(es: seq<Event>): seq<Event> {
    seq(|es|, i requires 0 <= i < |es| => Plainly(es[i]))
  }

  // Nothing else is left out.
  lemma PlainlyForgetsSeverity(a: Event, b: Event)
    ensures SameEvent(Plainly(a), a) && (Plainly(a) == Plainly(b) <==> SameEvent(a, b))
  {
  }

  // What the server dispatches on.
  function UpOf(m: Message): Option<UpMessage> {
    match m.body
    case ConnectBody => Some(UpConnect)
    case QueryBody => Some(UpQuery)
    case LogBody(es, a) => Some(UpLog(AllPlainly(es), a))
    case _ => None
  }

  // What the client dispatches on.
  function DownOf(m: Message): Option<DownMessage> {
    match m.body
    case ConnectBody => Some(DownConnect)
    case ReturnBody(v) => Some(DownReturn(v))
    case AcceptBody(v) => Some(DownAccept(v))
    case _ => None
  }

  // The two sides dispatch on a message that arrives as on the message that was sent.
  lemma SameMeaning(m: Message, item: Message)
    requires SameBody(m.body, item.body)
    ensures UpOf(item) == UpOf(m) && DownOf(item) == DownOf(m)
  {
    if m.body.LogBody? && item.body.LogBody? {
      assert AllPlainly(item.body.events) == AllPlainly(m.body.events);
    }
  }

  // ---------------------------------------------------------------- a socket as a channel

  ghost predicate ReadsAs<M, U>(items: seq<M>, read: M -> Option<U>, channel: seq<U>) {
    |items| == |channel| && forall i :: 0 <= i < |items| ==> read(items[i]) == Some(channel[i])
  }

  // The messages sent on a socket and not handled at its other end are those of a channel of the
  // protocol, and the first `decoded` of them wait in the queue of the decoder.
  ghost predicate Carries<M, U>(lib: Primitives<M>, read: M -> Option<U>, sent: seq<Package<M>>, e: Endpoint<M>,
                                underway: seq<byte>, channel: seq<U>, decoded: nat)
  {
    && SocketOk(lib, sent, e, underway) && |e.decoder.queue| == decoded
    && ReadsAs(Objects(sent)[|e.handled|..], read, channel)
  }

  lemma SendIsCarried<M, U>(lib: Primitives<M>, read: M -> Option<U>, sent: seq<Package<M>>, e: Endpoint<M>,
                            underway: seq<byte>, channel: seq<U>, decoded: nat, p: Package<M>, u: U)
    requires Carries(lib, read, sent, e, underway, channel, decoded) && WellFramed(lib, p) && read(p.item) == Some(u)
    ensures Carries(lib, read, sent + [p], e, underway + p.frame, channel + [u], decoded)
  {
    EnqueueKeeps(lib, sent, e, underway, p);
    StreamAppend(sent, [p]);
    var items, n := Objects(sent), |e.handled|;
    assert Objects([p]) == [p.item];
    assert (items + [p.item])[n..] == items[n..] + [p.item];
  }

  // Octets under way belong to a message that has not been decoded.
  lemma StillDue<M>(lib: Primitives<M>, sent: seq<Package<M>>, e: Endpoint<M>, underway: seq<byte>)
    requires SocketOk(lib, sent, e, underway) && underway != []
    ensures |e.Decoded()| < |sent|
  {
    assert |e.decoder.Pending() + underway| > 0;
    assert sent[|e.Decoded()|..] != [];
  }

  lemma HandlesOne<M>(lib: Primitives<M>, e: Endpoint<M>, chunk: seq<byte>, e': Endpoint<M>)
    requires e.decoder.Valid() && OnRead(lib, e, chunk) == Some(e')
    ensures |e.Decoded()| <= |e'.Decoded()| && |e'.handled| == Min(|e.handled| + 1, |e'.Decoded()|)
  {
    OnReadIsScan(lib, e, chunk);
  }

  // What a delivery decodes, in numbers.
  lemma DeliveryCounts<M>(lib: Primitives<M>, sent: seq<Package<M>>, e: Endpoint<M>, e': Endpoint<M>,
                          chunk: seq<byte>, rest: seq<byte>)
    requires SocketOk(lib, sent, e, chunk + rest) && chunk != [] && OnRead(lib, e, chunk) == Some(e')
    ensures SocketOk(lib, sent, e', rest)
    ensures |e.Decoded()| < |sent| && |e.Decoded()| <= |e'.Decoded()| <= |sent|
    ensures e.handled <= e'.handled <= Objects(sent)
    ensures |e'.handled| == Min(|e.handled| + 1, |e'.Decoded()|)
  {
    StillDue(lib, sent, e, chunk + rest);
    HandlesOne(lib, e, chunk, e');
    DeliverKeeps(lib, sent, e, chunk, rest);
    OkDelivers(lib, sent, e', rest);
  }

  // Every delivery on such a socket is a read of the protocol that completes as many messages as
  // are decoded, and handles the first message of the channel; or it handles nothing, where none has
  // been decoded.
  lemma DeliveryIsRead<M, U>(lib: Primitives<M>, read: M -> Option<U>, sent: seq<Package<M>>, e: Endpoint<M>,
                             chunk: seq<byte>, rest: seq<byte>, channel: seq<U>, decoded: nat)
    returns (e': Endpoint<M>, n: nat)
    requires Carries(lib, read, sent, e, chunk + rest, channel, decoded) && chunk != []
    ensures OnRead(lib, e, chunk) == Some(e') && decoded < |channel|
    ensures decoded + n == 0 ==>
              e'.handled == e.handled && Carries(lib, read, sent, e', rest, channel, 0)
    ensures decoded + n > 0 ==>
              && Arrives(channel, decoded, n)
              && |e'.handled| == |e.handled| + 1 && e'.handled[..|e.handled|] == e.handled
              && read(e'.handled[|e.handled|]) == Some(channel[0])
              && Carries(lib, read, sent, e', rest, channel[1..], decoded + n - 1)
  {
    DeliverKeeps(lib, sent, e, chunk, rest);
    e' := OnRead(lib, e, chunk).value;
    DeliveryCounts(lib, sent, e, e', chunk, rest);
    n := |e'.Decoded()| - |e.Decoded()|;
    var items, h := Objects(sent), |e.handled|;
    if decoded + n > 0 {
      assert e'.handled[h] == items[h] == items[h..][0];
      assert items[h + 1..] == items[h..][1..];
    } else {
      assert e'.handled == e.handled;
    }
  }

  // ---------------------------------------------------------------- the two channels

  ghost predicate UpCarried(lib: Primitives<Message>, sent: seq<Package<Message>>, e: Endpoint<Message>,
                            underway: seq<byte>, s: System)
  {
    Carries(lib, UpOf, sent, e, underway, s.up, s.upDecoded)
  }

  ghost predicate DownCarried(lib: Primitives<Message>, sent: seq<Package<Message>>, e: Endpoint<Message>,
                              underway: seq<byte>, s: System)
  {
    Carries(lib, DownOf, sent, e, underway, s.down, s.downDecoded)
  }

  // The server's state after a delivery, where `completed` messages were decoded.
  function AfterServerRead(s: System, completed: nat): System
    requires s.upDecoded < |s.up| && s.upDecoded + completed <= |s.up|
  {
    if s.upDecoded + completed == 0 then s else DoServerReads(s, completed)
  }

  function AfterClientRead(s: System, completed: nat): System
    requires s.forwarder.Some? && s.downDecoded < |s.down| && s.downDecoded + completed <= |s.down|
  {
    if s.downDecoded + completed == 0 then s else DoClientReads(s, completed)
  }

  lemma UpDelivery(lib: Primitives<Message>, sent: seq<Package<Message>>, e: Endpoint<Message>,
                   chunk: seq<byte>, rest: seq<byte>, s: System)
    returns (e': Endpoint<Message>, n: nat)
    requires UpCarried(lib, sent, e, chunk + rest, s) && chunk != []
    ensures OnRead(lib, e, chunk) == Some(e')
    ensures s.upDecoded < |s.up| && s.upDecoded + n <= |s.up|
    ensures UpCarried(lib, sent, e', rest, AfterServerRead(s, n))
    ensures if s.upDecoded + n == 0 then e'.handled == e.handled
            else |e'.handled| == |e.handled| + 1 && e'.handled[..|e.handled|] == e.handled
                 && UpOf(e'.handled[|e.handled|]) == Some(s.up[0])
  {
    e', n := DeliveryIsRead(lib, UpOf, sent, e, chunk, rest, s.up, s.upDecoded);
  }

  lemma DownDelivery(lib: Primitives<Message>, sent: seq<Package<Message>>, e: Endpoint<Message>,
                     chunk: seq<byte>, rest: seq<byte>, s: System)
    returns (e': Endpoint<Message>, n: nat)
    requires DownCarried(lib, sent, e, chunk + rest, s) && chunk != [] && s.forwarder.Some?
    ensures OnRead(lib, e, chunk) == Some(e')
    ensures s.downDecoded < |s.down| && s.downDecoded + n <= |s.down|
    ensures DownCarried(lib, sent, e', rest, AfterClientRead(s, n))
    ensures if s.downDecoded + n == 0 then e'.handled == e.handled
            else |e'.handled| == |e.handled| + 1 && e'.handled[..|e.handled|] == e.handled
                 && DownOf(e'.handled[|e.handled|]) == Some(s.down[0])
  {
    e', n := DeliveryIsRead(lib, DownOf, sent, e, chunk, rest, s.down, s.downDecoded);
  }

  // ---------------------------------------------------------------- what the protocol sends

  // A package of m: what the reader makes of it is m again, but for the severity of events.
  ghost predicate PackageOf(lib: Primitives<Message>, m: Message, p: Package<Message>) {
    WellFramed(lib, p) && SameBody(m.body, p.item.body)
  }

  // Serializing and framing a message that is not a refusal gives such a package.
  lemma SerializedIsPackage(lib: Primitives<Message>, parse: seq<byte> -> Option<WireMessage>, next: int,
                            m: Message, me: Identity, now: string, plain: seq<byte>)
    requires lib.Lawful() && lib.parse == ParseWith(parse, next)
    requires parse(plain) == Some(ToWire(m, me, now)) && 0 < |plain| < U32
    requires m.Op() != Refuse
    ensures lib.parse(plain).Some? && PackageOf(lib, m, Pack(lib, plain))
    ensures Pack(lib, plain).frame == Frame(lib, plain)
  {
    MessageIsWellFramed(lib, parse, next, m, me, now, plain);
  }

  lemma UpGrows(lib: Primitives<Message>, m: Message, p: Package<Message>, sent: seq<Package<Message>>,
                e: Endpoint<Message>, underway: seq<byte>, s: System, t: System, u: UpMessage)
    requires PackageOf(lib, m, p) && UpOf(m) == Some(u) && UpCarried(lib, sent, e, underway, s)
    requires t.up == s.up + [u] && t.upDecoded == s.upDecoded
    ensures UpCarried(lib, sent + [p], e, underway + p.frame, t)
  {
    SameMeaning(m, p.item);
    SendIsCarried(lib, UpOf, sent, e, underway, s.up, s.upDecoded, p, u);
  }

  lemma DownGrows(lib: Primitives<Message>, m: Message, p: Package<Message>, sent: seq<Package<Message>>,
                  e: Endpoint<Message>, underway: seq<byte>, s: System, t: System, u: DownMessage)
    requires PackageOf(lib, m, p) && DownOf(m) == Some(u) && DownCarried(lib, sent, e, underway, s)
    requires t.down == s.down + [u] && t.downDecoded == s.downDecoded
    ensures DownCarried(lib, sent + [p], e, underway + p.frame, t)
  {
    SameMeaning(m, p.item);
    SendIsCarried(lib, DownOf, sent, e, underway, s.down, s.downDecoded, p, u);
  }

  lemma NothingCarried<M, U>(lib: Primitives<M>, read: M -> Option<U>, e: Endpoint<M>)
    requires SocketOk(lib, [], e, []) && e.handled == [] && e.decoder.queue == []
    ensures Carries(lib, read, [], e, [], [], 0)
  {
    var items := Objects<M>([]);
    assert items[|e.handled|..] == [];
  }

  lemma FirstCarried(lib: Primitives<Message>, p: Package<Message>, e: Endpoint<Message>)
    requires SocketOk(lib, [], e, []) && e.handled == [] && e.decoder.queue == []
    requires WellFramed(lib, p) && UpOf(p.item) == Some(UpConnect)
    ensures Carries(lib, UpOf, [p], e, p.frame, [UpConnect], 0)
  {
    NothingCarried(lib, UpOf, e);
    SendIsCarried(lib, UpOf, [], e, [], [], 0, p, UpConnect);
    assert [] + [p] == [p] && [] + p.frame == p.frame && [] + [UpConnect] == [UpConnect];
  }

  // A process that connects, whose endpoint has read nothing, writes a CONNECT on a new socket.
  lemma ConnectIsCarried(lib: Primitives<Message>, m: Message, p: Package<Message>, e: Endpoint<Message>, s: System)
    requires PackageOf(lib, m, p) && m.Op() == Operation.Connect
    requires SocketOk(lib, [], e, []) && e.handled == [] && e.decoder.queue == []
    ensures UpCarried(lib, [p], e, p.frame, DoConnect(s)) && DownCarried(lib, [], e, [], DoConnect(s))
  {
    SameMeaning(m, p.item);
    FirstCarried(lib, p, e);
    NothingCarried(lib, DownOf, e);
  }

  // The client answers the server's CONNECT with a QUERY_LAST_EVENT.
  lemma QueryIsCarried(lib: Primitives<Message>, m: Message, p: Package<Message>, sent: seq<Package<Message>>,
                       e: Endpoint<Message>, underway: seq<byte>, s: System, n: nat)
    requires PackageOf(lib, m, p) && m.Op() == QueryLastEvent && UpCarried(lib, sent, e, underway, s)
    requires s.forwarder.Some? && Arrives(s.down, s.downDecoded, n) && s.down[0].DownConnect?
    ensures UpCarried(lib, sent + [p], e, underway + p.frame, DoClientReads(s, n))
  {
    UpGrows(lib, m, p, sent, e, underway, s, DoClientReads(s, n), UpQuery);
  }

  // The sender's UPDATE_LOG has the events of its batch.
  lemma BatchIsCarried(lib: Primitives<Message>, m: Message, p: Package<Message>, sent: seq<Package<Message>>,
                       e: Endpoint<Message>, underway: seq<byte>, s: System, r: Reading)
    requires PackageOf(lib, m, p) && m.Op() == UpdateLog && UpCarried(lib, sent, e, underway, s)
    requires s.forwarder.Some?
    requires var batch := Batch(s.forwarder.value, s.log, r);
             AllPlainly(m.body.events) == batch.events && m.body.needAccept == batch.needAccept
    ensures UpCarried(lib, sent + [p], e, underway + p.frame, DoSend(s, r))
  {
    UpGrows(lib, m, p, sent, e, underway, s, DoSend(s, r), Batch(s.forwarder.value, s.log, r));
  }

  // The server answers a CONNECT with a CONNECT.
  lemma AnswerIsCarried(lib: Primitives<Message>, m: Message, p: Package<Message>, sent: seq<Package<Message>>,
                        e: Endpoint<Message>, underway: seq<byte>, s: System, n: nat)
    requires PackageOf(lib, m, p) && m.Op() == Operation.Connect && DownCarried(lib, sent, e, underway, s)
    requires Arrives(s.up, s.upDecoded, n) && s.up[0].UpConnect?
    ensures DownCarried(lib, sent + [p], e, underway + p.frame, DoServerReads(s, n))
  {
    DownGrows(lib, m, p, sent, e, underway, s, DoServerReads(s, n), DownConnect);
  }

  // It answers a query with a RETURN_LAST_EVENT: one more than the greatest id it has stored.
  lemma ReturnIsCarried(lib: Primitives<Message>, m: Message, p: Package<Message>, sent: seq<Package<Message>>,
                        e: Endpoint<Message>, underway: seq<byte>, s: System, n: nat)
    requires PackageOf(lib, m, p) && m.Op() == ReturnLastEvent && DownCarried(lib, sent, e, underway, s)
    requires Arrives(s.up, s.upDecoded, n) && s.up[0].UpQuery? && m.body.lastEvent == MaxRid(s.rows) + 1
    ensures DownCarried(lib, sent + [p], e, underway + p.frame, DoServerReads(s, n))
  {
    DownGrows(lib, m, p, sent, e, underway, s, DoServerReads(s, n), DownReturn(m.body.lastEvent));
  }

  // An insertion that was asked for acceptance sends an ACCEPT_LAST_EVENT: one more than the id of
  // the last event that the server was sent.
  lemma AcceptIsCarried(lib: Primitives<Message>, m: Message, p: Package<Message>, sent: seq<Package<Message>>,
                        e: Endpoint<Message>, underway: seq<byte>, s: System, i: nat, abort: bool)
    requires PackageOf(lib, m, p) && m.Op() == AcceptLastEvent && DownCarried(lib, sent, e, underway, s)
    requires i < |s.work| && s.work[i].needAccept && s.work[i].live && m.body.lastEvent == s.lid + 1
    ensures DownCarried(lib, sent + [p], e, underway + p.frame, DoInsert(s, i, abort))
  {
    DownGrows(lib, m, p, sent, e, underway, s, DoInsert(s, i, abort), DownAccept(m.body.lastEvent));
  }

  // What the server does for a message, by its operation; it handles no other ones.
  predicate Answers(m: Message, s: System, t: System) {
    match m.Op()
    case Connect => t.down == s.down + [DownConnect] && t.work == s.work && t.lid == s.lid
    case QueryLastEvent =>
      t.lid == MaxRid(s.rows) && t.down == s.down + [DownReturn(t.lid + 1)] && t.work == s.work
    case UpdateLog =>
      t.down == s.down && t.work == s.work + [Work(AllPlainly(m.body.events), m.body.needAccept, true)]
    case _ => false
  }

  lemma ReadByOperation(m: Message, s: System, n: nat)
    requires Arrives(s.up, s.upDecoded, n) && UpOf(m) == Some(s.up[0])
    ensures Answers(m, s, DoServerReads(s, n))
  {
  }

  // What the client does for a message, by its operation.
  predicate Obeys(m: Message, s: System, t: System)
    requires s.forwarder.Some? && t.forwarder.Some?
  {
    var f, g := s.forwarder.value, t.forwarder.value;
    match m.Op()
    case Connect => g == f && t.up == s.up + [UpQuery]
    case ReturnLastEvent =>
      t.up == s.up && g.started == (f.started || f.watermark == 0) && g.upload == f.upload
      && g.watermark == if f.watermark == 0 then m.body.lastEvent else f.watermark
    case AcceptLastEvent =>
      t.up == s.up && g.started == f.started && g.upload && g.watermark == m.body.lastEvent
    case _ => false
  }

  lemma ClientReadByOperation(m: Message, s: System, n: nat)
    requires s.forwarder.Some? && Arrives(s.down, s.downDecoded, n) && DownOf(m) == Some(s.down[0])
    ensures Obeys(m, s, DoClientReads(s, n))
  {
  }

  // ---------------------------------------------------------------- readFromNetwork

  // Client::readFromNetwork on the octets of a delivery: one read and one pop of the decoder, and
  // the dispatch on what was popped. The assertions of the decoder hold, and the objects show the
  // protocol's state after its read. What is done for the message that was handled, if one was, is
  // also said by its operation.
  method ReadFromNetwork(client: ServerClient, decoder: Decoder.ProtobufPacketDecoder<Message>, chunk: seq<byte>,
                         found: int, ghost s: System, ghost sent: seq<Package<Message>>,
                         ghost handled: seq<Message>, ghost rest: seq<byte>)
    returns (ghost n: nat, ghost handled': seq<Message>)
    requires client.Shows(s) && chunk != []
    requires UpCarried(decoder.lib, sent, Endpoint(decoder.View(), handled), chunk + rest, s)
    requires s.up != [] ==> client.CanDispatch(s.up[0], found, s)
    modifies client, decoder, decoder.headerBuffer
    ensures s.upDecoded < |s.up| && s.upDecoded + n <= |s.up|
    ensures client.Shows(AfterServerRead(s, n))
    ensures UpCarried(decoder.lib, sent, Endpoint(decoder.View(), handled'), rest, AfterServerRead(s, n))
    ensures if s.upDecoded + n == 0 then handled' == handled
            else |handled'| == |handled| + 1 && handled'[..|handled|] == handled
    ensures |handled'| > |handled| ==> Answers(handled'[|handled|], s, AfterServerRead(s, n))
  {
    ghost var e';
    e', n := UpDelivery(decoder.lib, sent, Endpoint(decoder.View(), handled), chunk, rest, s);
    var msg, aborted := ReadAndPop(decoder, chunk, handled);
    handled' := e'.handled;
    if msg.None? {
      return;
    }
    var m := UpOf(msg.value);
    client.Dispatch(m.value, found, s, n);
    ReadByOperation(msg.value, s, n);
  }
}
