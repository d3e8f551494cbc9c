// What the decoder guarantees over any sequence of reads, pops and resets.
module DecoderProperties {
  import opened Bytes
  import opened Frames
  import opened DecoderMachine
  import opened DecoderRefinement

  function Concat(chunks: seq<seq<byte>>): seq<byte> {
    if chunks == [] then [] else chunks[0] + Concat(chunks[1..])
  }

  function ReadAll<M>(lib: Primitives<M>, st: State<M>, chunks: seq<seq<byte>>): Outcome<M>
    requires st.Shaped()
    decreases |chunks|
  {
    if chunks == [] then Finished(st)
    else
      var o := Run(lib, st, Read(chunks[0]));
      if o.Finished? then ReadAll(lib, o.st, chunks[1..]) else o
  }

  // A header that announces an empty payload, with nothing after it.
  predicate EmptyFrameHeader(s: seq<byte>) {
    |s| == HEADER_SIZE && WireSize(s) == 0
  }

  // `o` is what the parser says of the octets `s`.
  ghost predicate Decodes<M>(lib: Primitives<M>, queue: seq<M>, s: seq<byte>, o: Outcome<M>) {
    var r := Scan(lib, s);
    match o
    case Finished(st) =>
      r.verdict == Waiting && st.Valid() && st.queue == queue + r.messages && st.Pending() == r.rest
    case Aborted => r.verdict == Fault
    case Diverges => r.verdict == Spin
  }

  lemma ReadFirst<M>(lib: Primitives<M>, st: State<M>, chunk: seq<byte>, more: seq<byte>)
    requires st.Valid() && !EmptyFrameHeader(Scan(lib, st.Pending() + chunk + more).rest)
    ensures var o := Run(lib, st, Read(chunk));
            var r := Scan(lib, st.Pending() + chunk + more);
            match o
            case Finished(st') => st'.Valid() && exists ms ::
                st'.queue == st.queue + ms && r == Prepend(ms, Scan(lib, st'.Pending() + more))
            case Aborted => r.verdict == Fault
            case Diverges => r.verdict == Spin
  {
    RunIsScan(lib, st, Read(chunk));
    ScanAppend(lib, st.Pending() + chunk, more);
    if Stuck(st.Pending(), chunk) {
      assert st.Pending() + chunk == st.Pending();
      EmptyPayload(lib, st.Pending(), more);
    } else if Scan(lib, st.Pending() + chunk).verdict == Waiting {
      var ms := Scan(lib, st.Pending() + chunk).messages;
      assert Scan(lib, st.Pending() + chunk + more)
          == Prepend(ms, Scan(lib, Scan(lib, st.Pending() + chunk).rest + more));
    }
  }

  // Refinement: however a stream is divided into reads, the decoder does what the parser does
  // with the whole of it.
  lemma {:induction false} ReadAllIsScan<M>(lib: Primitives<M>, st: State<M>, chunks: seq<seq<byte>>)
    requires st.Valid()
    requires !EmptyFrameHeader(Scan(lib, st.Pending() + Concat(chunks)).rest)
    ensures Decodes(lib, st.queue, st.Pending() + Concat(chunks), ReadAll(lib, st, chunks))
    decreases |chunks|
  {
    var s := st.Pending() + Concat(chunks);
    if chunks == [] {
      assert s == st.Pending();
      PendingWaits(lib, st);
      assert st.queue + [] == st.queue;
    } else {
      var more := Concat(chunks[1..]);
      Associates(st.Pending(), chunks[0], more);
      ReadFirst(lib, st, chunks[0], more);
      var o := Run(lib, st, Read(chunks[0]));
      if o.Finished? {
        var ms :| o.st.queue == st.queue + ms && Scan(lib, s) == Prepend(ms, Scan(lib, o.st.Pending() + more));
        ReadAllIsScan(lib, o.st, chunks[1..]);
        Associates(st.queue, ms, Scan(lib, o.st.Pending() + more).messages);
      }
    }
  }

  lemma PendingWaits<M>(lib: Primitives<M>, st: State<M>)
    requires st.Valid()
    ensures Scan(lib, st.Pending()) == Scanned([], st.Pending(), Waiting)
  {
    if st.compressSize != 0 {
      Assembled(st.header, st.buf, [], 0);
      assert (st.header + st.buf) + [] == st.header + st.buf;
    }
  }

  lemma IncompleteWaits<M>(lib: Primitives<M>, tail: seq<byte>)
    requires Incomplete(tail)
    ensures Scan(lib, tail) == Scanned([], tail, Waiting)
  {
  }

  lemma FreshReads<M>(lib: Primitives<M>, chunks: seq<seq<byte>>, s: seq<byte>)
    requires Concat(chunks) == s && !EmptyFrameHeader(Scan(lib, s).rest)
    ensures Decodes(lib, [], s, ReadAll(lib, Fresh(), chunks))
  {
    var start := Fresh<M>();
    assert start.Pending() + s == s;
    ReadAllIsScan(lib, start, chunks);
  }

  lemma StreamThenTail<M>(lib: Primitives<M>, ps: seq<Package<M>>, tail: seq<byte>)
    requires AllFramed(lib, ps) && Incomplete(tail)
    ensures Scan(lib, Stream(ps) + tail) == Scanned(Objects(ps), tail, Waiting)
  {
    ScanStream(lib, ps, tail);
    IncompleteWaits(lib, tail);
    assert Objects(ps) + [] == Objects(ps);
  }

  // Well-formed frames and an incomplete tail, in any chunks, empty ones included: the objects are
  // queued in order and the decoder keeps exactly the tail.
  lemma FramesInAnyChunks<M>(lib: Primitives<M>, ps: seq<Package<M>>, tail: seq<byte>, chunks: seq<seq<byte>>)
    requires AllFramed(lib, ps) && Incomplete(tail)
    requires Concat(chunks) == Stream(ps) + tail
    ensures var o := ReadAll(lib, Fresh(), chunks);
            o.Finished? && o.st.Valid() && o.st.queue == Objects(ps) && o.st.Pending() == tail
  {
    StreamThenTail(lib, ps, tail);
    FreshReads(lib, chunks, Concat(chunks));
    assert [] + Objects(ps) == Objects(ps);
  }

  // ---------------------------------------------------------------- states that cannot be told apart

  ghost predicate Twins<M>(a: State<M>, b: State<M>) {
    a.Valid() && b.Valid() && a.Pending() == b.Pending() && a.queue == b.queue
  }

  ghost predicate SameOutcome<M>(a: Outcome<M>, b: Outcome<M>) {
    match a
    case Finished(s) => b.Finished? && Twins(s, b.st)
    case Aborted => b.Aborted?
    case Diverges => b.Diverges?
  }

  // Two ways of cutting the same octets cannot be told apart afterwards.
  lemma CutsAreIndifferent<M>(lib: Primitives<M>, st: State<M>, a: seq<seq<byte>>, b: seq<seq<byte>>)
    requires st.Valid() && Concat(a) == Concat(b)
    requires !EmptyFrameHeader(Scan(lib, st.Pending() + Concat(a)).rest)
    ensures SameOutcome(ReadAll(lib, st, a), ReadAll(lib, st, b))
  {
    ReadAllIsScan(lib, st, a);
    ReadAllIsScan(lib, st, b);
  }

  // What is left of a stream is no longer than a header only where the parser waits.
  lemma {:induction false} ShortRestWaits<M>(lib: Primitives<M>, s: seq<byte>)
    requires |Scan(lib, s).rest| <= HEADER_SIZE
    ensures Scan(lib, s).verdict == Waiting
    decreases |s|
  {
    if HasFrame(s) {
      var n := HEADER_SIZE + WireSize(s);
      FirstFrameOf(lib, s, n);
      if Open(lib, s[..HEADER_SIZE], s[HEADER_SIZE..n]).Some? {
        ShortRestWaits(lib, s[n..]);
      }
    }
  }

  // An empty read after such a header never returns.
  lemma EmptyReadDiverges<M>(lib: Primitives<M>, st: State<M>)
    requires st.Valid() && EmptyFrameHeader(st.Pending())
    ensures ReadAll(lib, st, [[]]).Diverges?
  {
    RunIsScan(lib, st, Read([]));
  }

  // A read that ends with such a header returns, and one more empty read does not.
  lemma CutAfterEmptyFrameHeader<M>(lib: Primitives<M>, st: State<M>, s: seq<byte>)
    requires st.Valid() && s != [] && EmptyFrameHeader(Scan(lib, st.Pending() + s).rest)
    ensures ReadAll(lib, st, [s]).Finished?
    ensures ReadAll(lib, st, [s, []]).Diverges?
  {
    ShortRestWaits(lib, st.Pending() + s);
    RunIsScan(lib, st, Read(s));
    var o := Run(lib, st, Read(s));
    assert [s][1..] == [] && [s, []][1..] == [[]];
    EmptyReadDiverges(lib, o.st);
  }

  // No two divisions of the octets s, read from `st` on, can be told apart.
  ghost predicate CutsDoNotMatter<M>(lib: Primitives<M>, st: State<M>, s: seq<byte>)
    requires st.Shaped()
  {
    forall a: seq<seq<byte>>, b: seq<seq<byte>> | Concat(a) == s && Concat(b) == s ::
      SameOutcome(ReadAll(lib, st, a), ReadAll(lib, st, b))
  }

  lemma ConcatOfOne(s: seq<byte>)
    ensures Concat([s]) == s && Concat([s, []]) == s && Concat([]) == []
  {
    var empty: seq<byte> := [];
    assert [s][1..] == [] && [s, empty][1..] == [empty] && [empty][1..] == [];
  }

  // It does not matter how a stream is divided into reads, if and only if it does not leave the
  // decoder with a header that announces an empty payload.
  lemma CutsMatterExactly<M>(lib: Primitives<M>, st: State<M>, s: seq<byte>)
    requires st.Valid()
    ensures CutsDoNotMatter(lib, st, s) <==> !EmptyFrameHeader(Scan(lib, st.Pending() + s).rest)
  {
    if !EmptyFrameHeader(Scan(lib, st.Pending() + s).rest) {
      forall a: seq<seq<byte>>, b: seq<seq<byte>> | Concat(a) == s && Concat(b) == s
        ensures SameOutcome(ReadAll(lib, st, a), ReadAll(lib, st, b))
      {
        CutsAreIndifferent(lib, st, a, b);
      }
    } else if s == [] {
      assert st.Pending() + s == st.Pending();
      PendingWaits(lib, st);
      EmptyReadDiverges(lib, st);
      ConcatOfOne(s);
      assert !SameOutcome(ReadAll(lib, st, []), ReadAll(lib, st, [[]]));
    } else {
      CutAfterEmptyFrameHeader(lib, st, s);
      ConcatOfOne(s);
      assert !SameOutcome(ReadAll(lib, st, [s]), ReadAll(lib, st, [s, []]));
    }
  }

  lemma HeaderWaits<M>(lib: Primitives<M>, header: seq<byte>)
    requires |header| == HEADER_SIZE
    ensures Scan(lib, Fresh<M>().Pending() + header) == Scanned([], header, Waiting)
  {
    assert Fresh<M>().Pending() + header == header;
  }

  // The smallest instance: a new decoder and nothing but the header.
  lemma HeaderAlone<M>(lib: Primitives<M>, header: seq<byte>)
    requires EmptyFrameHeader(header)
    ensures ReadAll(lib, Fresh(), [header]).Finished?
    ensures ReadAll(lib, Fresh(), [header, []]).Diverges?
  {
    HeaderWaits(lib, header);
    CutAfterEmptyFrameHeader(lib, Fresh(), header);
  }

  datatype Op = Feed(chunk: seq<byte>) | Pop

  // The outputs of a sequence of reads and pops, and how the last read ended.
  datatype Trace<M> = Trace(outcome: Outcome<M>, popped: seq<Option<M>>)

  function Exec<M>(lib: Primitives<M>, st: State<M>, ops: seq<Op>): Trace<M>
    requires st.Shaped()
    decreases |ops|
  {
    if ops == [] then Trace(Finished(st), [])
    else match ops[0]
         case Feed(chunk) =>
           var o := Run(lib, st, Read(chunk));
           if o.Finished? then Exec(lib, o.st, ops[1..]) else Trace(o, [])
         case Pop =>
           var head := if st.queue == [] then None else Some(st.queue[0]);
           var rest := if st.queue == [] then st else st.(queue := st.queue[1..]);
           var t := Exec(lib, rest, ops[1..]);
           t.(popped := [head] + t.popped)
  }

  // Stale header octets and the stale serial size have no effect on any later call.
  lemma {:induction false} TwinsBehaveAlike<M>(lib: Primitives<M>, a: State<M>, b: State<M>, ops: seq<Op>)
    requires Twins(a, b)
    ensures Exec(lib, a, ops).popped == Exec(lib, b, ops).popped
    ensures SameOutcome(Exec(lib, a, ops).outcome, Exec(lib, b, ops).outcome)
    decreases |ops|
  {
    if ops != [] {
      match ops[0]
      case Feed(chunk) =>
        RunIsScan(lib, a, Read(chunk));
        RunIsScan(lib, b, Read(chunk));
        var o, p := Run(lib, a, Read(chunk)), Run(lib, b, Read(chunk));
        if o.Finished? {
          TwinsBehaveAlike(lib, o.st, p.st, ops[1..]);
        }
      case Pop =>
        if a.queue == [] {
          TwinsBehaveAlike(lib, a, b, ops[1..]);
        } else {
          TwinsBehaveAlike(lib, a.(queue := a.queue[1..]), b.(queue := b.queue[1..]), ops[1..]);
        }
    }
  }
}
