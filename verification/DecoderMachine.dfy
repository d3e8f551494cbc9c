// ProtobufPacketDecoder as a machine on values. parseHeader and _read call each other in tail
// position, so one activation is one step of the machine; a whole call is a run of it.
module DecoderMachine {
  import opened Bytes
  import opened Frames

  // `buf` holds the octets of the string stream that have not been read back; `header` is the
  // whole 40-octet array, of which the first `headerSize` octets belong to the current frame.
  datatype State<M> = State(
    compressSize: nat,
    remainSize: nat,
    serialSize: nat,
    headerSize: nat,
    header: seq<byte>,
    buf: seq<byte>,
    queue: seq<M>)
  {
    // What every call keeps whatever `buf` holds.
    predicate Shaped() {
      && |header| == HEADER_SIZE
      && headerSize <= HEADER_SIZE
      && remainSize <= compressSize
      && (compressSize != 0 ==> headerSize == HEADER_SIZE && 0 < remainSize)
    }

    // The representation invariant: the buffer holds the part of the payload that has arrived.
    predicate Valid() {
      && Shaped()
      && |buf| == compressSize - remainSize
      && (compressSize != 0 ==> compressSize == WireSize(header) && serialSize == SerialSize(header))
    }

    // The octets of the unfinished frame.
    function Pending(): (p: seq<byte>)
      requires Shaped()
    {
      if compressSize == 0 then header[..headerSize] else header + buf
    }
  }

  function Fresh<M>(): State<M> {
    State(0, 0, 0, 0, Zeros(HEADER_SIZE), [], [])
  }

  datatype Call = ParseHeader(data: seq<byte>) | Read(data: seq<byte>)

  datatype Next<M> =
    | Return(st: State<M>)                    // the activation ends
    | Enter(st: State<M>, call: Call)         // it ends by calling the other function
    | AssertionFailed

  function Min(a: nat, b: nat): nat { if a < b then a else b }

  // `header` with `part` copied to position `at`.
  function Overwrite(header: seq<byte>, at: nat, part: seq<byte>): (h: seq<byte>)
    requires at + |part| <= |header|
    ensures |h| == |header|
  {
    header[..at] + part + header[at + |part|..]
  }

  // The header is complete and `data` follows it.
  function EnterPayload<M>(st: State<M>, data: seq<byte>): Next<M>
    requires st.Shaped()
  {
    if st.compressSize == 0 then
      var w := WireSize(st.header);
      Enter(st.(compressSize := w, remainSize := w, serialSize := SerialSize(st.header)), Read(data))
    else AssertionFailed
  }

  function StepHeader<M>(st: State<M>, data: seq<byte>): Next<M>
    requires st.Shaped()
  {
    if st.headerSize < HEADER_SIZE then
      var n := Min(HEADER_SIZE - st.headerSize, |data|);
      var filled := st.(header := Overwrite(st.header, st.headerSize, data[..n]),
                        headerSize := st.headerSize + n);
      if n == |data| then Return(filled) else EnterPayload(filled, data[n..])
    else EnterPayload(st, data)
  }

  // The payload ends within `data`.
  function FinishFrame<M>(lib: Primitives<M>, st: State<M>, data: seq<byte>): Next<M>
    requires st.Shaped() && st.compressSize != 0 && st.remainSize <= |data|
  {
    var early := st.compressSize - st.remainSize;
    if |st.buf| < early then AssertionFailed
    else
      var payload := st.buf[..early] + data[..st.remainSize];
      var plain := if st.serialSize == st.compressSize then payload
                   else lib.decompress(payload, st.serialSize);
      if lib.digest(plain) != st.header[8..] then AssertionFailed
      else match lib.parse(plain)
           case None => AssertionFailed
           case Some(m) =>
             Enter(st.(queue := st.queue + [m], buf := st.buf[early..],
                       compressSize := 0, headerSize := 0, remainSize := 0),
                   ParseHeader(data[st.remainSize..]))
  }

  function StepRead<M>(lib: Primitives<M>, st: State<M>, data: seq<byte>): Next<M>
    requires st.Shaped()
  {
    if st.compressSize == 0 then Enter(st, ParseHeader(data))
    else if st.remainSize <= |data| then FinishFrame(lib, st, data)
    else Return(st.(buf := st.buf + data, remainSize := st.remainSize - |data|))
  }

  function Step<M>(lib: Primitives<M>, st: State<M>, call: Call): (next: Next<M>)
    requires st.Shaped()
    ensures !next.AssertionFailed? ==> next.st.Shaped()
  {
    match call
    case ParseHeader(data) => StepHeader(st, data)
    case Read(data) => StepRead(lib, st, data)
  }

  // ---------------------------------------------------------------- whole calls

  // Orders the activations that work on the same data.
  function Rank<M>(st: State<M>, call: Call): nat {
    if call.ParseHeader? then 1 else if st.compressSize == 0 then 2 else 0
  }

  predicate Smaller<M>(st': State<M>, call': Call, st: State<M>, call: Call) {
    |call'.data| < |call.data| || (|call'.data| == |call.data| && Rank(st', call') < Rank(st, call))
  }

  datatype Outcome<M> = Finished(st: State<M>) | Aborted | Diverges

  // The outcome of a call, by recursion on the data left and the rank. An activation that is not
  // smaller than its caller starts an endless recursion (lemma OutcomeIsExact).
  function Run<M>(lib: Primitives<M>, st: State<M>, call: Call): (o: Outcome<M>)
    requires st.Shaped()
    ensures o.Finished? ==> o.st.Shaped()
    decreases |call.data|, Rank(st, call)
  {
    match Step(lib, st, call)
    case Return(st') => Finished(st')
    case AssertionFailed => Aborted
    case Enter(st', call') =>
      if Smaller(st', call', st, call) then Run(lib, st', call') else Diverges
  }

  // The machine after at most n steps from `next`.
  function After<M>(lib: Primitives<M>, next: Next<M>, n: nat): Next<M>
    requires next.Enter? ==> next.st.Shaped()
    decreases n
  {
    if n == 0 || !next.Enter? then next else After(lib, Step(lib, next.st, next.call), n - 1)
  }

  // A complete header that announces an empty payload.
  predicate Spinning<M>(next: Next<M>) {
    next.Enter? && next.st.Shaped() && next.st.compressSize == 0
    && next.st.headerSize == HEADER_SIZE && WireSize(next.st.header) == 0
  }

  lemma {:induction false} SpinningForEver<M>(lib: Primitives<M>, next: Next<M>, n: nat)
    requires Spinning(next)
    ensures After(lib, next, n).Enter?
    decreases n
  {
    if n > 0 {
      SpinningForEver(lib, Step(lib, next.st, next.call), n - 1);
    }
  }

  lemma StepSmallerOrSpins<M>(lib: Primitives<M>, st: State<M>, call: Call)
    requires st.Shaped()
    ensures var next := Step(lib, st, call);
            next.Enter? ==> Smaller(next.st, next.call, st, call) || Spinning(next)
  {
  }

  // How a call that does not diverge ends.
  function Ending<M>(o: Outcome<M>): Next<M>
    requires !o.Diverges?
  {
    match o
    case Finished(st) => Return(st)
    case Aborted => AssertionFailed
  }

  // Run is exact: it says Diverges just when no number of steps ends the call, and otherwise
  // some number of steps ends it with the state, or the failed assertion, that Run says.
  lemma {:induction false} OutcomeIsExact<M>(lib: Primitives<M>, st: State<M>, call: Call)
    requires st.Shaped()
    ensures var o := Run(lib, st, call);
            if o.Diverges? then forall n: nat :: After(lib, Enter(st, call), n).Enter?
            else exists n: nat :: After(lib, Enter(st, call), n) == Ending(o)
    decreases |call.data|, Rank(st, call)
  {
    var next := Step(lib, st, call);
    StepSmallerOrSpins(lib, st, call);
    if !next.Enter? {
      assert After(lib, next, 0) == next;
      assert After(lib, Enter(st, call), 1) == next;
    } else if Smaller(next.st, next.call, st, call) {
      OutcomeIsExact(lib, next.st, next.call);
      var o := Run(lib, st, call);
      if o.Diverges? {
        forall n: nat ensures After(lib, Enter(st, call), n).Enter? {
          if n > 0 { assert After(lib, next, n - 1).Enter?; }
        }
      } else {
        var n: nat :| After(lib, next, n) == Ending(o);
        assert After(lib, Enter(st, call), n + 1) == Ending(o);
      }
    } else {
      forall n: nat ensures After(lib, Enter(st, call), n).Enter? {
        if n > 0 { SpinningForEver(lib, next, n - 1); }
      }
    }
  }
}
