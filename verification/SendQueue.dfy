// The server's send queue: packages for all sockets wait in one queue until the event loop
// hands each of them to its socket (UvHandler::WriteToNetwork, UvHandler::_WriteToNetwork).
module SendQueue {
  import opened Bytes
  import opened Frames
  import Decoder

  type Socket = nat

  datatype SendObject = SendObject(buf: seq<byte>, sock: Socket)

  // The octets handed to each socket and not yet delivered at its other end.
  type Wires = map<Socket, seq<byte>>

  function OnWire(wires: Wires, s: Socket): seq<byte> {
    if s in wires then wires[s] else []
  }

  // uv_write of one package.
  function Write(wires: Wires, o: SendObject): Wires {
    wires[o.sock := OnWire(wires, o.sock) + o.buf]
  }

  function WriteAll(wires: Wires, queue: seq<SendObject>): Wires
    decreases |queue|
  {
    if queue == [] then wires else WriteAll(Write(wires, queue[0]), queue[1..])
  }

  // The octets in the queue that are meant for one socket.
  function QueuedFor(queue: seq<SendObject>, s: Socket): seq<byte> {
    if queue == [] then []
    else (if queue[0].sock == s then queue[0].buf else []) + QueuedFor(queue[1..], s)
  }

  lemma {:induction false} WriteAllOnWire(wires: Wires, queue: seq<SendObject>, s: Socket)
    ensures OnWire(WriteAll(wires, queue), s) == OnWire(wires, s) + QueuedFor(queue, s)
    decreases |queue|
  {
    if queue != [] {
      var o := queue[0];
      WriteAllOnWire(Write(wires, o), queue[1..], s);
      if o.sock == s {
        Associates(OnWire(wires, s), o.buf, QueuedFor(queue[1..], s));
      }
    }
  }

  lemma {:induction false} QueuedForAppend(queue: seq<SendObject>, o: SendObject, s: Socket)
    ensures QueuedFor(queue + [o], s) == QueuedFor(queue, s) + if o.sock == s then o.buf else []
  {
    if queue == [] {
      assert [o][1..] == [] && [] + [o] == [o];
    } else {
      assert (queue + [o])[1..] == queue[1..] + [o];
      QueuedForAppend(queue[1..], o, s);
    }
  }

  class UvHandler {
    var sendingQueue: seq<SendObject>
    var wires: Wires

    constructor ()
      ensures sendingQueue == [] && wires == map[]
    {
      sendingQueue, wires := [], map[];
    }

    // The message is serialized when it is queued.
    method WriteToNetwork<M>(lib: Primitives<M>, plain: seq<byte>, sock: Socket)
      requires lib.Lawful()
      modifies this`sendingQueue
      ensures sendingQueue == old(sendingQueue) + [SendObject(Frame(lib, plain), sock)]
    {
      var pkg := Decoder.FrameBytes(lib, plain);
      sendingQueue := sendingQueue + [SendObject(pkg[..], sock)];
    }

    // Each socket gets its own packages, in the order in which they were queued.
    method FlushQueue()
      modifies this
      ensures sendingQueue == []
      ensures wires == WriteAll(old(wires), old(sendingQueue))
      ensures forall s :: OnWire(wires, s) == OnWire(old(wires), s) + QueuedFor(old(sendingQueue), s)
    {
      while |sendingQueue| > 0
        invariant WriteAll(wires, sendingQueue) == WriteAll(old(wires), old(sendingQueue))
        decreases |sendingQueue|
      {
        var front := sendingQueue[0];
        wires := Write(wires, front);
        sendingQueue := sendingQueue[1..];
      }
      forall s ensures OnWire(wires, s) == OnWire(old(wires), s) + QueuedFor(old(sendingQueue), s) {
        WriteAllOnWire(old(wires), old(sendingQueue), s);
      }
    }
  }
}
