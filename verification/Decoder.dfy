// ProtobufPacketDecoder and the framing half of CoreMessage::toBytes, updated in place as the
// library does it.
module Decoder {
  import opened Bytes
  import opened Frames
  import opened DecoderMachine
  import opened DecoderRefinement
  import DecoderReset

  lemma OverwriteNext(h: seq<byte>, at: nat, src: seq<byte>, i: nat)
    requires i < |src| && at + |src| <= |h|
    ensures Overwrite(h, at, src[..i])[at + i := src[i]] == Overwrite(h, at, src[..i + 1])
  {
    assert src[..i + 1] == src[..i] + [src[i]];
  }

  // memmove(dst + at, src, |src|)
  method Store(dst: array<byte>, at: nat, src: seq<byte>)
    requires at + |src| <= dst.Length
    modifies dst
    ensures dst[..] == Overwrite(old(dst[..]), at, src)
  {
    var i := 0;
    while i < |src|
      invariant 0 <= i <= |src|
      invariant dst[..] == Overwrite(old(dst[..]), at, src[..i])
    {
      OverwriteNext(old(dst[..]), at, src, i);
      dst[at + i] := src[i];
      i := i + 1;
    }
    assert src[..i] == src;
  }

  lemma Written(z: seq<byte>, a: seq<byte>, b: seq<byte>, d: seq<byte>, p: seq<byte>)
    requires |a| == 4 && |b| == 4 && |d| == 32 && |z| == HEADER_SIZE + |p|
    ensures Overwrite(Overwrite(Overwrite(Overwrite(z, 0, a), 4, b), 8, d), HEADER_SIZE, p) == a + b + d + p
  {
    var z2 := Overwrite(Overwrite(z, 0, a), 4, b);
    assert z2[..8] == a + b;
    var z3 := Overwrite(z2, 8, d);
    assert z3[..HEADER_SIZE] == a + b + d;
  }

  // The package for a serialized message: behind the header, the smaller of its two forms.
  method FrameBytes<M>(lib: Primitives<M>, plain: seq<byte>) returns (pkg: array<byte>)
    requires lib.Lawful()
    ensures fresh(pkg) && pkg[..] == Frame(lib, plain)
    ensures var packed := lib.compress(plain);
            && pkg.Length == HEADER_SIZE + Min(|plain|, |packed|)
            && pkg[HEADER_SIZE..] == if |packed| < |plain| then packed else plain
  {
    var digest := lib.digest(plain);
    var packed := lib.compress(plain);
    var payload := plain;
    if |packed| < |plain| {
      payload := packed;
    }
    pkg := new byte[HEADER_SIZE + |payload|](_ => 0);
    assert pkg[..] == Zeros(pkg.Length);
    Store(pkg, 0, BigEndian32(Truncate32(|plain|)));
    Store(pkg, 4, BigEndian32(Truncate32(|payload|)));
    Store(pkg, 8, digest);
    Store(pkg, HEADER_SIZE, payload);
    Written(Zeros(pkg.Length), BigEndian32(Truncate32(|plain|)), BigEndian32(Truncate32(|payload|)), digest, payload);
    SmallerFormIsSent(lib, plain);
    assert pkg[HEADER_SIZE..] == pkg[..][HEADER_SIZE..];
  }

  class ProtobufPacketDecoder<M> {
    const lib: Primitives<M>
    var compressSize: nat
    var remainSize: nat
    var serialSize: nat
    var headerSize: nat
    var vec: seq<M>
    const headerBuffer: array<byte>
    var buf: seq<byte>

    ghost function View(): State<M>
      reads this, headerBuffer
    {
      State(compressSize, remainSize, serialSize, headerSize, headerBuffer[..], buf, vec)
    }

    constructor (lib: Primitives<M>)
      ensures this.lib == lib && fresh(headerBuffer)
      ensures View() == Fresh()
    {
      this.lib := lib;
      compressSize, remainSize, serialSize, headerSize := 0, 0, 0, 0;
      vec, buf := [], [];
      headerBuffer := new byte[HEADER_SIZE](_ => 0);
      new;
      assert headerBuffer[..] == Zeros(HEADER_SIZE);
    }

    // Copies octets into the header until it is full or there are no more.
    method FillHeader(data: seq<byte>) returns (c: nat)
      requires View().Shaped()
      modifies this`headerSize, headerBuffer
      ensures c == Min(HEADER_SIZE - old(headerSize), |data|)
      ensures View() == old(View()).(
        header := Overwrite(old(headerBuffer[..]), old(headerSize), data[..c]),
        headerSize := old(headerSize) + c)
    {
      c := 0;
      assert headerBuffer[..] == Overwrite(old(headerBuffer[..]), old(headerSize), data[..0]);
      while headerSize < HEADER_SIZE && c < |data|
        invariant c <= |data| && headerSize == old(headerSize) + c <= HEADER_SIZE
        invariant headerBuffer[..] == Overwrite(old(headerBuffer[..]), old(headerSize), data[..c])
      {
        headerBuffer[headerSize] := data[c];
        c := c + 1;
        headerSize := headerSize + 1;
      }
    }

    method ParseHeader(data: seq<byte>) returns (aborted: bool)
      requires View().Shaped() && !Run(lib, View(), Call.ParseHeader(data)).Diverges?
      modifies this, headerBuffer
      ensures Run(lib, old(View()), Call.ParseHeader(data)) == if aborted then Aborted else Finished(View())
      decreases |data|, Rank(View(), Call.ParseHeader(data))
    {
      var rest := data;
      if headerSize < HEADER_SIZE {
        var c := FillHeader(data);
        if c == |data| {
          return false;
        }
        rest := data[c..];
      }
      if compressSize == 0 {
        compressSize := Word32(headerBuffer[4..8]);
        remainSize := compressSize;
        serialSize := Word32(headerBuffer[..4]);
        assert headerBuffer[..][4..8] == headerBuffer[4..8];
        assert headerBuffer[..][..4] == headerBuffer[..4];
        var _, a := ReadData(rest);
        aborted := a;
      } else {
        aborted := true;
      }
    }

    // The part of _read that completes a payload; no object where an assertion fails.
    method FinishPayload(data: seq<byte>) returns (ret: Option<M>)
      requires View().Shaped() && compressSize != 0 && remainSize <= |data|
      modifies this
      ensures var next := FinishFrame(lib, old(View()), data);
              if ret.None? then next.AssertionFailed?
              else next == Enter(View(), Call.ParseHeader(data[old(remainSize)..])) && vec == old(vec) + [ret.value]
    {
      var early := compressSize - remainSize;
      if |buf| < early {
        return None;
      }
      var payload := buf[..early] + data[..remainSize];
      buf := buf[early..];
      var plain := payload;
      if serialSize != compressSize {
        plain := lib.decompress(payload, serialSize);
      }
      assert headerBuffer[8..] == headerBuffer[..][8..];
      if lib.digest(plain) != headerBuffer[8..] {
        return None;
      }
      ret := lib.parse(plain);
      if ret.None? {
        return;
      }
      vec := vec + [ret.value];
      compressSize, headerSize, remainSize := 0, 0, 0;
    }

    // The library's _read. Its result is the object of the first frame that ends within `data`,
    // and only if the decoder was inside that frame's payload when it was called; the other
    // objects are found in the queue alone.
    method ReadData(data: seq<byte>) returns (ret: Option<M>, aborted: bool)
      requires View().Shaped() && !Run(lib, View(), Call.Read(data)).Diverges?
      modifies this, headerBuffer
      ensures Run(lib, old(View()), Call.Read(data)) == if aborted then Aborted else Finished(View())
      ensures !aborted ==>
        old(vec) <= vec
        && (ret.Some? <==> old(compressSize) != 0 && old(remainSize) <= |data|)
        && (ret.Some? ==> |vec| > |old(vec)| && ret.value == vec[|old(vec)|])
      decreases |data|, Rank(View(), Call.Read(data))
    {
      ret := None;
      QueueOnlyGrows(lib, View(), Call.Read(data));
      if compressSize != 0 {
        if remainSize <= |data| {
          var more := data[remainSize..];
          ret := FinishPayload(data);
          if ret.None? {
            return None, true;
          }
          QueueOnlyGrows(lib, View(), Call.ParseHeader(more));
          aborted := ParseHeader(more);
        } else {
          buf := buf + data;
          remainSize := remainSize - |data|;
          aborted := false;
        }
      } else {
        aborted := ParseHeader(data);
      }
    }

    method GetProtobufMessage() returns (msg: Option<M>)
      modifies this`vec
      ensures msg == if old(vec) == [] then None else Some(old(vec)[0])
      ensures vec == if old(vec) == [] then [] else old(vec)[1..]
    {
      if vec == [] {
        msg := None;
      } else {
        msg := Some(vec[0]);
        vec := vec[1..];
      }
    }

    method Reset()
      requires View().Shaped()
      modifies this
      ensures View() == DecoderReset.Reset(old(View()))
    {
      vec := [];
      compressSize, remainSize, headerSize := 0, 0, 0;
    }

    // A read in a valid state, said of the stream alone: the objects of the frames that are now
    // complete are queued, and what is left of the octets is pending.
    method Read(data: seq<byte>) returns (aborted: bool)
      requires View().Valid() && Scan(lib, View().Pending() + data).verdict != Spin
      requires !Stuck(View().Pending(), data)
      modifies this, headerBuffer
      ensures var r := Scan(lib, old(View()).Pending() + data);
              if aborted then r.verdict == Fault
              else View().Valid() && vec == old(vec) + r.messages && View().Pending() == r.rest && r.verdict == Waiting
    {
      RunIsScan(lib, View(), Call.Read(data));
      var _, a := ReadData(data);
      aborted := a;
    }
  }

  lemma {:induction false} QueueOnlyGrows<M>(lib: Primitives<M>, st: State<M>, call: Call)
    requires st.Shaped()
    ensures var o := Run(lib, st, call); o.Finished? ==> st.queue <= o.st.queue
    decreases |call.data|, Rank(st, call)
  {
    var next := Step(lib, st, call);
    if next.Enter? && Smaller(next.st, next.call, st, call) {
      QueueOnlyGrows(lib, next.st, next.call);
    }
  }
}
