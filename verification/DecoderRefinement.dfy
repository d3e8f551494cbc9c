// The incremental decoder refines the parser of whole streams, however the stream is cut.
module DecoderRefinement {
  import opened Bytes
  import opened Frames
  import opened DecoderMachine

  // The one input on which the decoder and the parser differ: an empty read after a header that
  // announces an empty payload and was complete when the previous read ended.
  predicate Stuck(pending: seq<byte>, data: seq<byte>) {
    data == [] && |pending| == HEADER_SIZE && WireSize(pending) == 0
  }

  // `o` is what the parser says of the pending octets followed by `data`.
  ghost predicate Agrees<M>(lib: Primitives<M>, queue: seq<M>, pending: seq<byte>, data: seq<byte>, o: Outcome<M>) {
    var r := Scan(lib, pending + data);
    match o
    case Finished(st) =>
      && r.verdict == Waiting && !Stuck(pending, data)
      && st.Valid() && st.queue == queue + r.messages && st.Pending() == r.rest
    case Aborted => r.verdict == Fault
    case Diverges => r.verdict == Spin || Stuck(pending, data)
  }

  // The calls the decoder makes of itself.
  predicate Sound<M>(st: State<M>, call: Call) {
    st.Valid() && (call.ParseHeader? ==> st.compressSize == 0)
  }

  lemma OverwriteKeepsPrefix(header: seq<byte>, at: nat, part: seq<byte>)
    requires at + |part| <= |header|
    ensures Overwrite(header, at, part)[..at + |part|] == header[..at] + part
  {
  }

  // After a step of parseHeader the octets are where they were: in the header, or in the header
  // and in the data passed on to _read.
  ghost predicate HeaderKept<M>(st: State<M>, data: seq<byte>, next: Next<M>)
    requires st.Valid() && st.compressSize == 0
  {
    match next
    case Return(st') =>
      && st'.Valid() && st'.queue == st.queue && st.headerSize < HEADER_SIZE
      && st'.Pending() == st.Pending() + data && |st'.Pending()| <= HEADER_SIZE
    case Enter(st', call') =>
      && st'.Shaped() && st'.queue == st.queue && st'.buf == [] && st'.headerSize == HEADER_SIZE
      && st'.compressSize == st'.remainSize == WireSize(st'.header)
      && st'.serialSize == SerialSize(st'.header)
      && call'.Read? && |call'.data| <= |data|
      && st'.header + call'.data == st.Pending() + data
      && (call'.data == [] ==> data == [] && st.headerSize == HEADER_SIZE)
    case AssertionFailed => false
  }

  lemma HeaderStep<M>(lib: Primitives<M>, st: State<M>, data: seq<byte>)
    requires Sound(st, ParseHeader(data))
    ensures HeaderKept(st, data, StepHeader(st, data))
  {
    if st.headerSize < HEADER_SIZE {
      var n := Min(HEADER_SIZE - st.headerSize, |data|);
      OverwriteKeepsPrefix(st.header, st.headerSize, data[..n]);
      var filled := Overwrite(st.header, st.headerSize, data[..n]);
      assert data[..n] + data[n..] == data;
      if n < |data| {
        assert filled[..HEADER_SIZE] == filled;
        assert filled + data[n..] == st.Pending() + (data[..n] + data[n..]);
      } else {
        assert data[..n] == data;
      }
    } else {
      assert st.header[..HEADER_SIZE] == st.header;
    }
  }

  // The pieces of a frame whose payload ends within `data`.
  lemma Assembled(header: seq<byte>, buf: seq<byte>, data: seq<byte>, n: nat)
    requires |header| == HEADER_SIZE && n <= |data|
    ensures var s := (header + buf) + data;
            && s[..HEADER_SIZE] == header
            && s[HEADER_SIZE..HEADER_SIZE + |buf| + n] == buf + data[..n]
            && s[HEADER_SIZE + |buf| + n..] == data[n..]
            && WireSize(s) == WireSize(header) && SerialSize(s) == SerialSize(header)
  {
    var s := (header + buf) + data;
    assert s[4..8] == header[4..8];
    assert s[..4] == header[..4];
  }

  // Finishing a frame queues its object and leaves the rest of the data to a decoder that waits
  // for a header.
  ghost predicate FrameTaken<M>(lib: Primitives<M>, st: State<M>, data: seq<byte>, next: Next<M>)
    requires st.Valid() && st.remainSize <= |data|
  {
    var r := Scan(lib, st.Pending() + data);
    match next
    case Enter(st', call') =>
      && st'.Valid() && st'.compressSize == 0 && st'.Pending() == []
      && call' == ParseHeader(data[st.remainSize..])
      && |st'.queue| == |st.queue| + 1
      && st'.queue == st.queue + [st'.queue[|st.queue|]]
      && r == Prepend([st'.queue[|st.queue|]], Scan(lib, call'.data))
    case AssertionFailed => r.verdict == Fault
    case Return(_) => false
  }

  // What the parser makes of a frame whose payload ends within `data`.
  lemma ScanAssembled<M>(lib: Primitives<M>, header: seq<byte>, buf: seq<byte>, data: seq<byte>, n: nat)
    requires |header| == HEADER_SIZE && n <= |data| && |buf| + n == WireSize(header) > 0
    ensures var head := Open(lib, header, buf + data[..n]);
            Scan(lib, (header + buf) + data) ==
              if head.None? then Scanned([], (header + buf) + data, Fault)
              else Prepend([head.value], Scan(lib, data[n..]))
  {
    Assembled(header, buf, data, n);
    FirstFrameOf(lib, (header + buf) + data, HEADER_SIZE + WireSize(header));
  }

  // The decoder opens a completed payload as the parser does.
  lemma FinishOpens<M>(lib: Primitives<M>, st: State<M>, data: seq<byte>)
    requires st.Valid() && st.compressSize != 0 && st.remainSize <= |data|
    ensures var head := Open(lib, st.header, st.buf + data[..st.remainSize]);
            FinishFrame(lib, st, data) ==
              if head.None? then AssertionFailed
              else Enter(st.(queue := st.queue + [head.value], buf := [],
                             compressSize := 0, headerSize := 0, remainSize := 0),
                         ParseHeader(data[st.remainSize..]))
  {
    assert st.buf[..|st.buf|] == st.buf;
    assert st.header[8..] == st.header[8..HEADER_SIZE];
  }

  lemma FinishStep<M>(lib: Primitives<M>, st: State<M>, data: seq<byte>)
    requires st.Valid() && st.compressSize != 0 && st.remainSize <= |data|
    ensures FrameTaken(lib, st, data, FinishFrame(lib, st, data))
  {
    FinishOpens(lib, st, data);
    ScanAssembled(lib, st.header, st.buf, data, st.remainSize);
  }

  // Reading past a header that announces an empty payload.
  lemma EmptyPayload<M>(lib: Primitives<M>, header: seq<byte>, data: seq<byte>)
    requires |header| == HEADER_SIZE && WireSize(header) == 0
    ensures Scan(lib, header + data).verdict == if data == [] then Waiting else Spin
  {
    HeadStays(header, data, HEADER_SIZE);
  }

  lemma {:induction false} SpinningDiverges<M>(lib: Primitives<M>, st: State<M>, call: Call)
    requires Spinning(Enter(st, call))
    ensures Run(lib, st, call).Diverges?
    decreases |call.data|, Rank(st, call)
  {
    var next := Step(lib, st, call);
    if Smaller(next.st, next.call, st, call) {
      SpinningDiverges(lib, next.st, next.call);
    }
  }

  lemma PayloadWaits<M>(lib: Primitives<M>, st: State<M>, data: seq<byte>)
    requires st.Valid() && |data| < st.remainSize
    ensures Scan(lib, st.Pending() + data) == Scanned([], st.Pending() + data, Waiting)
  {
    Assembled(st.header, st.buf, data, 0);
  }

  // The payload does not end within `data`.
  lemma PayloadGrows<M>(lib: Primitives<M>, st: State<M>, data: seq<byte>)
    requires Sound(st, Read(data)) && |data| < st.remainSize
    ensures Agrees(lib, st.queue, st.Pending(), data, Run(lib, st, Read(data)))
  {
    PayloadWaits(lib, st, data);
    assert st.Pending() + data == st.header + (st.buf + data);
    assert st.queue + [] == st.queue;
  }

  lemma HeaderGrows<M>(lib: Primitives<M>, st: State<M>, data: seq<byte>)
    requires Sound(st, ParseHeader(data)) && StepHeader(st, data).Return?
    ensures Agrees(lib, st.queue, st.Pending(), data, Run(lib, st, ParseHeader(data)))
  {
    HeaderStep(lib, st, data);
    assert st.queue + [] == st.queue;
  }

  // The header is complete: the call of _read that parseHeader makes does the rest.
  lemma HeaderEnds<M>(lib: Primitives<M>, st: State<M>, data: seq<byte>, next: Next<M>)
    requires Sound(st, ParseHeader(data)) && next == StepHeader(st, data) && next.Enter?
    requires next.st.Shaped()
    requires next.st.compressSize != 0 ==>
      Sound(next.st, next.call)
      && Agrees(lib, next.st.queue, next.st.Pending(), next.call.data, Run(lib, next.st, next.call))
    ensures Agrees(lib, st.queue, st.Pending(), data, Run(lib, st, ParseHeader(data)))
  {
    HeaderStep(lib, st, data);
    assert next.st.header + [] == next.st.header;
    if next.st.compressSize == 0 {
      EmptyPayload(lib, next.st.header, next.call.data);
      SpinningDiverges(lib, next.st, next.call);
      if next.call.data == [] {
        assert st.Pending() == next.st.header;
      }
    } else {
      HeadStays(next.st.header, next.call.data, HEADER_SIZE);
    }
  }

  lemma FrameEnds<M>(lib: Primitives<M>, st: State<M>, data: seq<byte>, next: Next<M>)
    requires Sound(st, Read(data)) && 0 < st.remainSize <= |data|
    requires next == FinishFrame(lib, st, data)
    requires next.Enter? ==>
      Sound(next.st, next.call)
      && Agrees(lib, next.st.queue, next.st.Pending(), next.call.data, Run(lib, next.st, next.call))
    ensures Agrees(lib, st.queue, st.Pending(), data, Run(lib, st, Read(data)))
  {
    FinishStep(lib, st, data);
    if next.Enter? {
      assert [] + next.call.data == next.call.data;
      var r := Scan(lib, next.call.data);
      Associates(st.queue, [next.st.queue[|st.queue|]], r.messages);
    }
  }

  // One call of the decoder, on any data in any valid state.
  lemma {:induction false} RunIsScan<M>(lib: Primitives<M>, st: State<M>, call: Call)
    requires Sound(st, call)
    ensures Agrees(lib, st.queue, st.Pending(), call.data, Run(lib, st, call))
    decreases |call.data|, Rank(st, call)
  {
    var next := Step(lib, st, call);
    if call.ParseHeader? {
      HeaderStep(lib, st, call.data);
      if next.Return? {
        HeaderGrows(lib, st, call.data);
      } else {
        if next.st.compressSize != 0 { RunIsScan(lib, next.st, next.call); }
        HeaderEnds(lib, st, call.data, next);
      }
    } else if st.compressSize == 0 {
      RunIsScan(lib, st, ParseHeader(call.data));
    } else if st.remainSize <= |call.data| {
      FinishStep(lib, st, call.data);
      if next.Enter? { RunIsScan(lib, next.st, next.call); }
      FrameEnds(lib, st, call.data, next);
    } else {
      PayloadGrows(lib, st, call.data);
    }
  }
}
