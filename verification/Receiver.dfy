// The read callbacks of both sides: every read feeds the decoder and then handles at most one
// message (uvNetworkReadCB, Client::readFromNetwork).
module Receiver {
  import opened Bytes
  import opened Frames
  import opened DecoderMachine
  import opened DecoderRefinement
  import opened DecoderProperties
  import Decoder

  datatype Endpoint<M> = Endpoint(decoder: State<M>, handled: seq<M>) {
    // Everything decoded so far, in order.
    function Decoded(): seq<M> { handled + decoder.queue }
  }

  function NewEndpoint<M>(): Endpoint<M> { Endpoint(Fresh(), []) }

  // The decoder has ended a read in state `st`.
  function PopOne<M>(st: State<M>, handled: seq<M>): (e: Endpoint<M>)
    requires st.Shaped()
    ensures e.decoder.Shaped()
  {
    if st.queue == [] then Endpoint(st, handled)
    else Endpoint(st.(queue := st.queue[1..]), handled + [st.queue[0]])
  }

  // One callback; None if the decoder aborts or never returns.
  function OnRead<M>(lib: Primitives<M>, e: Endpoint<M>, chunk: seq<byte>): (r: Option<Endpoint<M>>)
    requires e.decoder.Shaped()
    ensures r.Some? ==> r.value.decoder.Shaped()
  {
    var o := Run(lib, e.decoder, Read(chunk));
    if o.Finished? then Some(PopOne(o.st, e.handled)) else None
  }

  // One callback after another, each of which returns: es[k] is the endpoint after k reads.
  ghost predicate Served<M>(lib: Primitives<M>, chunks: seq<seq<byte>>, es: seq<Endpoint<M>>) {
    && |es| == |chunks| + 1 && es[0] == NewEndpoint()
    && forall i :: 0 <= i < |chunks| ==> Serves(lib, es[i], chunks[i], es[i + 1])
  }

  ghost predicate Serves<M>(lib: Primitives<M>, e: Endpoint<M>, chunk: seq<byte>, e': Endpoint<M>) {
    e.decoder.Shaped() && OnRead(lib, e, chunk) == Some(e')
  }

  // The callback itself, on a decoder object: one read and one pop. `handled` is what earlier
  // callbacks handled.
  method ReadAndPop<M>(decoder: Decoder.ProtobufPacketDecoder<M>, chunk: seq<byte>, ghost handled: seq<M>)
    returns (msg: Option<M>, aborted: bool)
    requires decoder.View().Shaped() && !Run(decoder.lib, decoder.View(), Read(chunk)).Diverges?
    modifies decoder, decoder.headerBuffer
    ensures var r := OnRead(decoder.lib, Endpoint(old(decoder.View()), handled), chunk);
            if aborted then r.None?
            else r == Some(Endpoint(decoder.View(), handled + (if msg.Some? then [msg.value] else [])))
  {
    var ret, a := decoder.ReadData(chunk);
    if a {
      return None, true;
    }
    ghost var st := decoder.View();
    msg := decoder.GetProtobufMessage();
    assert decoder.View() == PopOne(st, handled).decoder;
    assert handled + [] == handled;
    aborted := false;
  }

  lemma PopKeepsOrder<M>(st: State<M>, handled: seq<M>)
    requires st.Valid()
    ensures var e := PopOne(st, handled);
            && e.decoder.Valid() && e.decoder.Pending() == st.Pending()
            && e.Decoded() == handled + st.queue
            && |e.handled| == Min(|handled| + 1, |handled| + |st.queue|)
  {
    if st.queue != [] {
      assert st.queue == [st.queue[0]] + st.queue[1..];
      Associates(handled, [st.queue[0]], st.queue[1..]);
    }
  }

  // A callback decodes what the parser finds and handles the oldest message that is left, if any.
  lemma OnReadIsScan<M>(lib: Primitives<M>, e: Endpoint<M>, chunk: seq<byte>)
    requires e.decoder.Valid() && OnRead(lib, e, chunk).Some?
    ensures var r := Scan(lib, e.decoder.Pending() + chunk);
            var e' := OnRead(lib, e, chunk).value;
            && r.verdict == Waiting && e'.decoder.Valid() && e'.decoder.Pending() == r.rest
            && e'.Decoded() == e.Decoded() + r.messages
            && |e'.handled| == Min(|e.handled| + 1, |e.Decoded()| + |r.messages|)
  {
    RunIsScan(lib, e.decoder, Read(chunk));
    PopKeepsOrder(Run(lib, e.decoder, Read(chunk)).st, e.handled);
    Associates(e.handled, e.decoder.queue, Scan(lib, e.decoder.Pending() + chunk).messages);
  }

  lemma {:induction false} ConcatAppend(chunks: seq<seq<byte>>, last: seq<byte>)
    ensures Concat(chunks + [last]) == Concat(chunks) + last
  {
    if chunks == [] {
      assert [last][1..] == [] && [] + [last] == [last];
    } else {
      assert (chunks + [last])[1..] == chunks[1..] + [last];
      ConcatAppend(chunks[1..], last);
    }
  }

  // What has been decoded and what is pending are what the parser makes of the octets s.
  ghost predicate Holds<M>(lib: Primitives<M>, s: seq<byte>, e: Endpoint<M>) {
    e.decoder.Valid() && Scan(lib, s) == Scanned(e.Decoded(), e.decoder.Pending(), Waiting)
  }

  lemma NewHoldsNothing<M>(lib: Primitives<M>)
    ensures Holds(lib, [], NewEndpoint<M>())
  {
    var e := NewEndpoint<M>();
    assert e.Decoded() == [] && e.decoder.Pending() == [];
  }

  // One more read, seen from the whole stream.
  lemma ServeStep<M>(lib: Primitives<M>, s: seq<byte>, last: seq<byte>, e: Endpoint<M>, e': Endpoint<M>)
    requires Holds(lib, s, e) && Serves(lib, e, last, e')
    ensures Holds(lib, s + last, e')
    ensures |e'.handled| == Min(|e.handled| + 1, |Scan(lib, s + last).messages|)
  {
    OnReadIsScan(lib, e, last);
    ScanAppend(lib, s, last);
  }

  lemma ConcatPrefix(chunks: seq<seq<byte>>, k: nat)
    requires 0 < k <= |chunks|
    ensures Concat(chunks[..k]) == Concat(chunks[..k - 1]) + chunks[k - 1]
  {
    assert chunks[..k] == chunks[..k - 1] + [chunks[k - 1]];
    ConcatAppend(chunks[..k - 1], chunks[k - 1]);
  }

  // Nothing is lost, repeated or reordered by handling one message per read.
  lemma {:induction false} ServedIsScan<M>(lib: Primitives<M>, chunks: seq<seq<byte>>, es: seq<Endpoint<M>>, k: nat)
    requires Served(lib, chunks, es) && k <= |chunks|
    ensures Holds(lib, Concat(chunks[..k]), es[k])
  {
    if k == 0 {
      NewHoldsNothing(lib);
    } else {
      ServedIsScan(lib, chunks, es, k - 1);
      assert Serves(lib, es[k - 1], chunks[k - 1], es[k]);
      ServeStep(lib, Concat(chunks[..k - 1]), chunks[k - 1], es[k - 1], es[k]);
      ConcatPrefix(chunks, k);
    }
  }

  // How many messages the first k reads complete.
  function Arrived<M>(lib: Primitives<M>, chunks: seq<seq<byte>>, k: nat): nat
    requires k <= |chunks|
  {
    |Scan(lib, Concat(chunks[..k])).messages|
  }

  lemma OneMore<M>(lib: Primitives<M>, chunks: seq<seq<byte>>, es: seq<Endpoint<M>>, k: nat)
    requires Served(lib, chunks, es) && 0 < k <= |chunks|
    ensures |es[k].handled| == Min(|es[k - 1].handled| + 1, Arrived(lib, chunks, k))
  {
    ServedIsScan(lib, chunks, es, k - 1);
    assert Serves(lib, es[k - 1], chunks[k - 1], es[k]);
    ServeStep(lib, Concat(chunks[..k - 1]), chunks[k - 1], es[k - 1], es[k]);
    ConcatPrefix(chunks, k);
  }

  // `handled` is the least of counts[k] + (n - k), for k from 0 to n.
  ghost predicate IsLeast(counts: seq<nat>, n: nat, handled: nat)
    requires n < |counts|
  {
    && (forall k :: 0 <= k <= n ==> handled <= counts[k] + (n - k))
    && (exists k :: 0 <= k <= n && handled == counts[k] + (n - k))
  }

  // A queue to which arrivals are added and from which one is taken a time, if there is one.
  lemma {:induction false} OneAtATime(counts: seq<nat>, handled: seq<nat>, n: nat)
    requires n < |counts| == |handled| && counts[0] == 0 && handled[0] == 0
    requires forall k :: 0 < k < |counts| ==> handled[k] == Min(handled[k - 1] + 1, counts[k])
    ensures IsLeast(counts, n, handled[n])
  {
    if n == 0 {
      assert handled[0] == counts[0] + (0 - 0);
    } else {
      OneAtATime(counts, handled, n - 1);
      var k :| 0 <= k <= n - 1 && handled[n - 1] == counts[k] + (n - 1 - k);
      assert handled[n - 1] + 1 == counts[k] + (n - k);
      assert counts[n] == counts[n] + (n - n);
    }
  }

  lemma NothingArrived<M>(lib: Primitives<M>, chunks: seq<seq<byte>>)
    ensures Arrived(lib, chunks, 0) == 0
  {
    assert chunks[..0] == [];
  }

  function Arrivals<M>(lib: Primitives<M>, chunks: seq<seq<byte>>): (counts: seq<nat>)
    ensures |counts| == |chunks| + 1
    ensures forall k :: 0 <= k <= |chunks| ==> counts[k] == Arrived(lib, chunks, k)
  {
    seq(|chunks| + 1, k requires 0 <= k <= |chunks| => Arrived(lib, chunks, k))
  }

  // The backlog law: the messages handled after n reads, one at most per read, are as many as the
  // least of arrivals[k] + (n - k): the backlog grows by the arrivals and shrinks by one a read.
  lemma BacklogLaw<M>(lib: Primitives<M>, chunks: seq<seq<byte>>, es: seq<Endpoint<M>>, n: nat)
    requires Served(lib, chunks, es) && n <= |chunks|
    ensures IsLeast(Arrivals(lib, chunks), n, |es[n].handled|)
  {
    var counts := Arrivals(lib, chunks);
    var handled := seq(|es|, k requires 0 <= k < |es| => |es[k].handled|);
    NothingArrived(lib, chunks);
    forall k | 0 < k < |counts| ensures handled[k] == Min(handled[k - 1] + 1, counts[k]) {
      OneMore(lib, chunks, es, k);
    }
    OneAtATime(counts, handled, n);
  }
}
