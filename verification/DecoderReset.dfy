// ProtobufPacketDecoder::Reset clears the stream's flags but not its contents.
module DecoderReset {
  import opened Bytes
  import opened Frames
  import opened DecoderMachine
  import opened DecoderProperties
  import opened SampleCodec

  function Reset<M>(st: State<M>): State<M> {
    st.(queue := [], compressSize := 0, remainSize := 0, headerSize := 0)
  }

  // No codec and no sequence of reads and pops tells `st` from a new decoder.
  ghost predicate LikeFresh<M(!new)>(st: State<M>)
    requires st.Shaped()
  {
    forall lib: Primitives<M>, ops: seq<Op> | lib.Lawful() ::
      && Exec(lib, st, ops).popped == Exec(lib, Fresh(), ops).popped
      && SameOutcome(Exec(lib, st, ops).outcome, Exec(lib, Fresh(), ops).outcome)
  }

  lemma ResetEmptyBuffer<M>(st: State<M>)
    requires st.Shaped() && st.buf == []
    ensures Twins(Reset(st), Fresh())
  {
    assert Reset(st).Pending() == [];
    assert Fresh<M>().Pending() == [];
  }

  // Whatever the objects are, an empty buffer is enough.
  lemma EmptyBufferResets<M(!new)>(st: State<M>)
    requires st.Shaped() && st.buf == []
    ensures LikeFresh(Reset(st))
  {
    ResetEmptyBuffer(st);
    forall lib: Primitives<M>, ops: seq<Op> | lib.Lawful()
      ensures Exec(lib, Reset(st), ops).popped == Exec(lib, Fresh(), ops).popped
      ensures SameOutcome(Exec(lib, Reset(st), ops).outcome, Exec(lib, Fresh(), ops).outcome)
    {
      TwinsBehaveAlike(lib, Reset(st), Fresh(), ops);
    }
  }

  // ---------------------------------------------------------------- a probe for stale octets

  // A digest that tells whether a text starts with y.
  function Mark(x: seq<byte>, y: byte): (d: seq<byte>)
    ensures |d| == 32
  {
    if x != [] && x[0] == y then Zeros(32) else [1] + Zeros(31)
  }

  // A codec with that digest, for which every text is the object m.
  function Marking<M>(y: byte, m: M): Primitives<M> {
    Primitives(x => Mark(x, y), x => Squeeze(x), (c, n) => Expand(c, n), x => Some(m))
  }

  lemma MarkingIsLawful<M>(y: byte, m: M)
    ensures Marking(y, m).Lawful()
  {
    SqueezeExpands();
  }

  // A header for a raw payload of two octets that starts with y.
  function ProbeHeader(): (h: seq<byte>)
    ensures |h| == HEADER_SIZE && WireSize(h) == SerialSize(h) == 2 && h[8..] == Zeros(32)
  {
    var h := [0, 0, 0, 2, 0, 0, 0, 2] + Zeros(32);
    assert h[..4] == [0, 0, 0, 2] && h[4..8] == [0, 0, 0, 2];
    h
  }

  // A decoder between frames that may hold stale octets.
  predicate BetweenFrames<M>(st: State<M>) {
    st.Shaped() && st.compressSize == 0 && st.headerSize == 0 && st.queue == []
  }

  function HalfRead<M>(buf: seq<byte>): State<M> {
    State(2, 1, 2, HEADER_SIZE, ProbeHeader(), buf, [])
  }

  lemma ProbeStarts<M>(st: State<M>, y: byte, m: M)
    requires BetweenFrames(st)
    ensures Run(Marking(y, m), st, Read(ProbeHeader() + [y])) == Finished(HalfRead(st.buf + [y]))
  {
    var lib, h := Marking(y, m), ProbeHeader();
    var data := h + [y];
    assert data[..HEADER_SIZE] == h && data[HEADER_SIZE..] == [y];
    assert Overwrite(st.header, 0, h) == h;
    var filled := st.(header := h, headerSize := HEADER_SIZE);
    var entered := filled.(compressSize := 2, remainSize := 2, serialSize := 2);
    assert StepHeader(st, data) == Enter(entered, Read([y]));
    assert Run(lib, entered, Read([y])) == Finished(entered.(buf := st.buf + [y], remainSize := 1));
    assert Run(lib, st, ParseHeader(data)) == Run(lib, entered, Read([y]));
  }

  // The oldest octet in the buffer is taken for the first of the payload: the digest matches
  // exactly if that is y.
  lemma ProbeEnds<M>(buf: seq<byte>, y: byte, m: M)
    requires buf != []
    ensures var o := Run(Marking(y, m), HalfRead(buf), Read([1]));
            if buf[0] == y then o.Finished? && o.st.queue == [m] else o.Aborted?
  {
    var lib, st := Marking(y, m), HalfRead<M>(buf);
    var payload := buf[..1] + [1];
    assert [1][..1] == [1] && [1][1..] == [];
    assert payload == [buf[0], 1];
    if buf[0] == y {
      var taken := st.(queue := [m], buf := buf[1..], compressSize := 0, headerSize := 0, remainSize := 0);
      assert FinishFrame(lib, st, [1]) == Enter(taken, ParseHeader([]));
      assert StepHeader(taken, []).Return?;
    } else {
      assert lib.digest(payload)[0] != st.header[8..][0];
      assert FinishFrame(lib, st, [1]) == AssertionFailed;
    }
  }

  function Probe(y: byte): seq<Op> { [Feed(ProbeHeader() + [y]), Feed([1])] }

  lemma ProbeShows<M>(st: State<M>, y: byte, m: M)
    requires BetweenFrames(st)
    ensures var o := Exec(Marking(y, m), st, Probe(y)).outcome;
            if (st.buf + [y])[0] == y then o.Finished? else o.Aborted?
  {
    var lib, buf := Marking(y, m), st.buf + [y];
    ProbeStarts(st, y, m);
    ProbeEnds(buf, y, m);
    var ops := Probe(y);
    assert ops[1..] == [Feed([1])] && ops[1..][1..] == [];
    assert Exec(lib, st, ops) == Exec(lib, HalfRead(buf), [Feed([1])]);
  }

  lemma StaleBufferShows<M>(st: State<M>, y: byte, m: M)
    requires st.Shaped() && st.buf != [] && st.buf[0] != y
    ensures Exec(Marking(y, m), Reset(st), Probe(y)).outcome.Aborted?
    ensures Exec(Marking(y, m), Fresh(), Probe(y)).outcome.Finished?
  {
    ProbeShows(Reset(st), y, m);
    ProbeShows(Fresh(), y, m);
    assert (st.buf + [y])[0] == st.buf[0] && ([] + [y])[0] == y;
  }

  // ---------------------------------------------------------------- the exact condition

  lemma ToldApart<M(!new)>(st: State<M>, lib: Primitives<M>, ops: seq<Op>)
    requires st.Shaped() && lib.Lawful()
    requires Exec(lib, st, ops).outcome.Aborted? && Exec(lib, Fresh(), ops).outcome.Finished?
    ensures !LikeFresh(st)
  {
    assert !SameOutcome(Exec(lib, st, ops).outcome, Exec(lib, Fresh(), ops).outcome);
  }

  // A decoder that has been reset behaves like a new one if and only if every octet it had
  // buffered had been read back: the unread ones become the start of a later payload. That holds
  // for every type of objects that has an object at all.
  lemma ResetIsExact<M(!new)>(st: State<M>, m: M)
    requires st.Shaped()
    ensures LikeFresh(Reset(st)) <==> st.buf == []
  {
    if st.buf == [] {
      EmptyBufferResets(st);
    } else {
      var y: byte := if st.buf[0] == 0 then 1 else 0;
      MarkingIsLawful(y, m);
      StaleBufferShows(st, y, m);
      ToldApart(Reset(st), Marking(y, m), Probe(y));
    }
  }

  // Between two frames the buffer is empty, so a decoder that stopped there may be reset.
  lemma ResetBetweenFrames<M(!new)>(st: State<M>, m: M)
    requires st.Valid()
    ensures LikeFresh(Reset(st)) <==> st.compressSize == st.remainSize
  {
    ResetIsExact(st, m);
  }
}
