// From WriteToNetwork to the handler at the other end: any interleaving of queueing, flushing and
// deliveries, on any number of sockets, with the octets cut anywhere.
module Network {
  import opened Bytes
  import opened Frames
  import opened DecoderMachine
  import opened DecoderRefinement
  import opened Receiver
  import opened SendQueue

  // The traffic of one socket, whichever it is: the send queue, which all sockets share, the
  // octets that uv_write has taken for this socket, and its other end. `sent` records the messages
  // passed to WriteToNetwork for it.
  datatype Link<M> = Link(queue: seq<SendObject>, wire: seq<byte>, sent: seq<Package<M>>, end: Endpoint<M>)

  function NoTraffic<M>(): Link<M> { Link([], [], [], NewEndpoint()) }

  // A serialized message is queued for a socket; the queue is flushed; octets arrive.
  datatype Action = Enqueue(sock: Socket, plain: seq<byte>) | Flush | Deliver(count: nat)

  // What is queued has 1 to 2^32 - 1 octets, and the reader can parse it. A delivery hands a
  // non-empty prefix of the octets on the wire to the read callback.
  ghost predicate Enabled<M>(lib: Primitives<M>, k: Link<M>, a: Action) {
    match a
    case Enqueue(_, plain) => 0 < |plain| < U32 && lib.parse(plain).Some?
    case Flush => true
    case Deliver(n) => 0 < n <= |k.wire|
  }

  function Enqueued<M>(k: Link<M>, self: Socket, to: Socket, p: Package<M>): Link<M> {
    k.(queue := k.queue + [SendObject(p.frame, to)], sent := if to == self then k.sent + [p] else k.sent)
  }

  function Flushed<M>(k: Link<M>, self: Socket): Link<M> {
    k.(queue := [], wire := k.wire + QueuedFor(k.queue, self))
  }

  // None stands for a callback that fails.
  ghost function Apply<M>(lib: Primitives<M>, k: Link<M>, self: Socket, a: Action): (r: Option<Link<M>>)
    requires k.end.decoder.Shaped() && Enabled(lib, k, a)
    ensures r.Some? ==> r.value.end.decoder.Shaped()
  {
    match a
    case Enqueue(to, plain) => Some(Enqueued(k, self, to, Pack(lib, plain)))
    case Flush => Some(Flushed(k, self))
    case Deliver(n) =>
      match OnRead(lib, k.end, k.wire[..n])
      case None => None
      case Some(e) => Some(k.(wire := k.wire[n..], end := e))
  }

  // ---------------------------------------------------------------- one socket

  // What was decoded for a socket, and then the octets under way, are what was sent to it.
  ghost predicate SocketOk<M>(lib: Primitives<M>, sent: seq<Package<M>>, e: Endpoint<M>, underway: seq<byte>) {
    var n := |e.Decoded()|;
    && AllFramed(lib, sent) && e.decoder.Valid() && n <= |sent|
    && e.Decoded() == Objects(sent[..n])
    && e.decoder.Pending() + underway == Stream(sent[n..])
  }

  // A proper prefix of a frame is incomplete.
  lemma PrefixIncomplete(p: seq<byte>, rest: seq<byte>, f: seq<byte>, more: seq<byte>)
    requires p + rest == f + more && |p| < |f| && |f| > HEADER_SIZE && WireSize(f) == |f| - HEADER_SIZE
    ensures Incomplete(p)
  {
    if |p| >= HEADER_SIZE {
      assert p[4..8] == (p + rest)[4..8];
      assert f[4..8] == (f + more)[4..8];
    }
  }

  lemma SplitFrame(p: seq<byte>, rest: seq<byte>, f: seq<byte>, more: seq<byte>)
    requires p + rest == f + more && |p| >= |f|
    ensures p == f + p[|f|..] && p[|f|..] + rest == more
  {
    assert p[..|f|] == (p + rest)[..|f|];
    assert f == (f + more)[..|f|];
    assert p[|f|..] + rest == (p + rest)[|f|..];
    assert more == (f + more)[|f|..];
  }

  // `p` holds the first j frames of the stream and a part of the next one.
  ghost predicate IsCut<M>(lib: Primitives<M>, ps: seq<Package<M>>, p: seq<byte>, rest: seq<byte>, j: nat) {
    && j <= |ps|
    && var r := Scan(lib, p);
       r.verdict == Waiting && r.messages == Objects(ps[..j]) && r.rest + rest == Stream(ps[j..])
  }

  lemma CutInFirstFrame<M>(lib: Primitives<M>, ps: seq<Package<M>>, p: seq<byte>, rest: seq<byte>)
    requires AllFramed(lib, ps) && p + rest == Stream(ps)
    requires ps != [] ==> |p| < |ps[0].frame|
    ensures IsCut(lib, ps, p, rest, 0)
  {
    assert ps[0..] == ps;
    if ps != [] {
      PrefixIncomplete(p, rest, ps[0].frame, Stream(ps[1..]));
    }
  }

  lemma CutAfterFrame<M>(lib: Primitives<M>, ps: seq<Package<M>>, p: seq<byte>, rest: seq<byte>, k: nat)
    requires AllFramed(lib, ps) && ps != []
    requires IsCut(lib, ps[1..], p, rest, k)
    ensures IsCut(lib, ps, ps[0].frame + p, rest, k + 1)
  {
    ScanPackage(lib, ps[0], p);
    assert ps[..k + 1][1..] == ps[1..][..k];
    assert ps[k + 1..] == ps[1..][k..];
  }

  // Scanning any prefix of a stream yields its first messages and an incomplete tail.
  lemma {:induction false} PrefixOfStream<M>(lib: Primitives<M>, ps: seq<Package<M>>, p: seq<byte>, rest: seq<byte>)
    returns (j: nat)
    requires AllFramed(lib, ps) && p + rest == Stream(ps)
    ensures IsCut(lib, ps, p, rest, j)
  {
    if ps == [] || |p| < |ps[0].frame| {
      CutInFirstFrame(lib, ps, p, rest);
      j := 0;
    } else {
      var f := ps[0].frame;
      SplitFrame(p, rest, f, Stream(ps[1..]));
      var k := PrefixOfStream(lib, ps[1..], p[|f|..], rest);
      CutAfterFrame(lib, ps, p[|f|..], rest, k);
      j := k + 1;
    }
  }

  lemma EnqueueKeeps<M>(lib: Primitives<M>, sent: seq<Package<M>>, e: Endpoint<M>, underway: seq<byte>, p: Package<M>)
    requires SocketOk(lib, sent, e, underway) && WellFramed(lib, p)
    ensures SocketOk(lib, sent + [p], e, underway + p.frame)
  {
    var n := |e.Decoded()|;
    assert (sent + [p])[..n] == sent[..n];
    assert (sent + [p])[n..] == sent[n..] + [p];
    StreamAppend(sent[n..], [p]);
    assert Stream([p]) == p.frame + [] == p.frame;
    Associates(e.decoder.Pending(), underway, p.frame);
  }

  // The octets that arrive with `chunk` start with complete frames of the messages still due.
  lemma ChunkIsCut<M>(lib: Primitives<M>, sent: seq<Package<M>>, e: Endpoint<M>, chunk: seq<byte>, rest: seq<byte>)
    returns (j: nat)
    requires SocketOk(lib, sent, e, chunk + rest)
    ensures IsCut(lib, sent[|e.Decoded()|..], e.decoder.Pending() + chunk, rest, j)
  {
    Associates(e.decoder.Pending(), chunk, rest);
    j := PrefixOfStream(lib, sent[|e.Decoded()|..], e.decoder.Pending() + chunk, rest);
  }

  lemma CallbackReturns<M>(lib: Primitives<M>, e: Endpoint<M>, chunk: seq<byte>)
    requires e.decoder.Valid() && chunk != [] && Scan(lib, e.decoder.Pending() + chunk).verdict == Waiting
    ensures OnRead(lib, e, chunk).Some?
    ensures e.handled <= OnRead(lib, e, chunk).value.handled
  {
    RunIsScan(lib, e.decoder, Read(chunk));
  }

  lemma JoinObjects<M>(sent: seq<Package<M>>, n: nat, j: nat)
    requires n + j <= |sent|
    ensures Objects(sent[..n]) + Objects(sent[n..][..j]) == Objects(sent[..n + j])
    ensures sent[n..][j..] == sent[n + j..]
  {
    StreamAppend(sent[..n], sent[n..][..j]);
    assert sent[..n] + sent[n..][..j] == sent[..n + j];
  }

  lemma SocketAdvances<M>(lib: Primitives<M>, sent: seq<Package<M>>, e: Endpoint<M>, e': Endpoint<M>,
                          rest: seq<byte>, j: nat)
    requires var n := |e.Decoded()|;
      && AllFramed(lib, sent) && n + j <= |sent| && e'.decoder.Valid()
      && e.Decoded() == Objects(sent[..n])
      && e'.Decoded() == e.Decoded() + Objects(sent[n..][..j])
      && e'.decoder.Pending() + rest == Stream(sent[n..][j..])
    ensures SocketOk(lib, sent, e', rest)
  {
    JoinObjects(sent, |e.Decoded()|, j);
  }

  // A delivery never fails, and keeps the socket's invariant.
  lemma DeliverKeeps<M>(lib: Primitives<M>, sent: seq<Package<M>>, e: Endpoint<M>, chunk: seq<byte>, rest: seq<byte>)
    requires SocketOk(lib, sent, e, chunk + rest) && chunk != []
    ensures var r := OnRead(lib, e, chunk);
            r.Some? && SocketOk(lib, sent, r.value, rest) && e.handled <= r.value.handled
  {
    var j := ChunkIsCut(lib, sent, e, chunk, rest);
    CallbackReturns(lib, e, chunk);
    OnReadIsScan(lib, e, chunk);
    SocketAdvances(lib, sent, e, OnRead(lib, e, chunk).value, rest, j);
  }

  // ---------------------------------------------------------------- runs

  ghost predicate Inv<M>(lib: Primitives<M>, k: Link<M>, self: Socket) {
    SocketOk(lib, k.sent, k.end, k.wire + QueuedFor(k.queue, self))
  }

  lemma EnqueueStep<M>(lib: Primitives<M>, k: Link<M>, self: Socket, to: Socket, p: Package<M>)
    requires Inv(lib, k, self) && WellFramed(lib, p)
    ensures Inv(lib, Enqueued(k, self, to, p), self)
  {
    var queued := QueuedFor(k.queue, self);
    QueuedForAppend(k.queue, SendObject(p.frame, to), self);
    if to == self {
      Associates(k.wire, queued, p.frame);
      EnqueueKeeps(lib, k.sent, k.end, k.wire + queued, p);
    } else {
      assert queued + [] == queued;
    }
  }

  lemma FlushStep<M>(lib: Primitives<M>, k: Link<M>, self: Socket)
    requires Inv(lib, k, self)
    ensures Inv(lib, Flushed(k, self), self)
  {
    var both := k.wire + QueuedFor(k.queue, self);
    assert both + [] == both;
  }

  lemma DeliverStep<M>(lib: Primitives<M>, k: Link<M>, self: Socket, n: nat)
    requires Inv(lib, k, self) && 0 < n <= |k.wire|
    ensures var r := OnRead(lib, k.end, k.wire[..n]);
            r.Some? && Inv(lib, k.(wire := k.wire[n..], end := r.value), self)
  {
    var queued := QueuedFor(k.queue, self);
    assert k.wire + queued == k.wire[..n] + (k.wire[n..] + queued);
    DeliverKeeps(lib, k.sent, k.end, k.wire[..n], k.wire[n..] + queued);
  }

  lemma ApplyKeepsInv<M>(lib: Primitives<M>, k: Link<M>, self: Socket, a: Action)
    requires lib.Lawful() && Inv(lib, k, self) && Enabled(lib, k, a)
    ensures var r := Apply(lib, k, self, a); r.Some? && Inv(lib, r.value, self)
  {
    match a
    case Enqueue(to, plain) =>
      PackIsWellFramed(lib, plain);
      EnqueueStep(lib, k, self, to, Pack(lib, plain));
    case Flush => FlushStep(lib, k, self);
    case Deliver(n) => DeliverStep(lib, k, self, n);
  }

  // The state after a run; None if some action was not possible or some callback failed.
  ghost function After<M>(lib: Primitives<M>, self: Socket, actions: seq<Action>): (r: Option<Link<M>>)
    ensures r.Some? ==> r.value.end.decoder.Shaped()
    decreases |actions|
  {
    if actions == [] then Some(NoTraffic())
    else
      var before, a := After(lib, self, actions[..|actions| - 1]), actions[|actions| - 1];
      if before.Some? && Enabled(lib, before.value, a) then Apply(lib, before.value, self, a) else None
  }

  lemma NewEndpointOk<M>(lib: Primitives<M>)
    ensures SocketOk(lib, [], NewEndpoint<M>(), [])
  {
    var e := NewEndpoint<M>();
    assert e.Decoded() == [] && e.decoder.Pending() == [];
  }

  lemma NoTrafficInv<M>(lib: Primitives<M>, self: Socket)
    ensures Inv(lib, NoTraffic<M>(), self)
  {
    var k := NoTraffic<M>();
    var underway := k.wire + QueuedFor(k.queue, self);
    assert underway == [];
    NewEndpointOk(lib);
    assert SocketOk(lib, k.sent, k.end, underway);
  }

  lemma {:induction false} RunsKeepInv<M>(lib: Primitives<M>, self: Socket, actions: seq<Action>)
    requires lib.Lawful() && After(lib, self, actions).Some?
    ensures Inv(lib, After(lib, self, actions).value, self)
    decreases |actions|
  {
    if actions == [] {
      NoTrafficInv(lib, self);
    } else {
      RunsKeepInv(lib, self, actions[..|actions| - 1]);
      ApplyKeepsInv(lib, After(lib, self, actions[..|actions| - 1]).value, self, actions[|actions| - 1]);
    }
  }

  lemma NothingDue<M>(lib: Primitives<M>, ps: seq<Package<M>>)
    requires AllFramed(lib, ps)
    ensures Stream(ps) == [] ==> ps == []
  {
    if ps != [] {
      assert |Stream(ps)| >= |ps[0].frame|;
    }
  }

  lemma OkDelivers<M>(lib: Primitives<M>, sent: seq<Package<M>>, e: Endpoint<M>, underway: seq<byte>)
    requires SocketOk(lib, sent, e, underway)
    ensures e.Decoded() <= Objects(sent)
    ensures underway == [] && e.decoder.Pending() == [] ==> e.Decoded() == Objects(sent)
  {
    var n := |e.Decoded()|;
    StreamAppend(sent[..n], sent[n..]);
    assert sent == sent[..n] + sent[n..];
    NothingDue(lib, sent[n..]);
  }

  lemma InvDelivers<M>(lib: Primitives<M>, k: Link<M>, self: Socket)
    requires Inv(lib, k, self)
    ensures k.end.handled <= Objects(k.sent)
    ensures k.wire == [] && QueuedFor(k.queue, self) == [] && k.end.decoder.Pending() == []
            ==> k.end.Decoded() == Objects(k.sent)
  {
    OkDelivers(lib, k.sent, k.end, k.wire + QueuedFor(k.queue, self));
  }

  // End to end, in every run of serialized messages: what has been handled for a socket is a prefix of what was sent to
  // it, in order, unaltered and without repetition; whatever is missing is still under way; and
  // no action that is enabled can fail.
  lemma DeliveryInOrder<M>(lib: Primitives<M>, self: Socket, actions: seq<Action>)
    requires lib.Lawful() && After(lib, self, actions).Some?
    ensures var k := After(lib, self, actions).value;
            && k.end.handled <= Objects(k.sent)
            && (k.wire == [] && QueuedFor(k.queue, self) == [] && k.end.decoder.Pending() == []
                ==> k.end.Decoded() == Objects(k.sent))
            && (forall a | Enabled(lib, k, a) :: Apply(lib, k, self, a).Some?)
  {
    var k := After(lib, self, actions).value;
    RunsKeepInv(lib, self, actions);
    InvDelivers(lib, k, self);
    forall a | Enabled(lib, k, a) ensures Apply(lib, k, self, a).Some? {
      ApplyKeepsInv(lib, k, self, a);
    }
  }
}
