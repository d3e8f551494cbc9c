// The frame format of WindowsProtobufLib: what CoreMessage::toBytes writes, and a pure parser of
// a whole byte stream, which is the reference the incremental decoder is measured against.
module Frames {
  import opened Bytes

  const HEADER_SIZE := 40

  // SHA-256, zlib and protobuf parsing are foreign code: they are the functions of this record.
  // `decompress` gets the capacity of the output buffer, as zlib's `uncompress` does; `parse`
  // is ParseFromArray followed by BuildObj, and is None where that yields no object.
  datatype Primitives<M> = Primitives(
    digest: seq<byte> -> seq<byte>,
    compress: seq<byte> -> seq<byte>,
    decompress: (seq<byte>, nat) -> seq<byte>,
    parse: seq<byte> -> Option<M>)
  {
    ghost predicate Lawful() {
      && (forall x :: |digest(x)| == 32)
      && (forall x :: |compress(x)| > 0)
      && (forall x :: decompress(compress(x), |x|) == x)
    }
  }

  // ---------------------------------------------------------------- writing

  // The sizes are stored in 32-bit words, so larger ones are truncated.
  function Header<M>(lib: Primitives<M>, plain: seq<byte>, wireSize: nat): seq<byte> {
    BigEndian32(Truncate32(|plain|)) + BigEndian32(Truncate32(wireSize)) + lib.digest(plain)
  }

  function Payload<M>(lib: Primitives<M>, plain: seq<byte>): seq<byte> {
    var packed := lib.compress(plain);
    if |packed| < |plain| then packed else plain
  }

  function Frame<M>(lib: Primitives<M>, plain: seq<byte>): seq<byte> {
    Header(lib, plain, |Payload(lib, plain)|) + Payload(lib, plain)
  }

  // ---------------------------------------------------------------- reading

  function SerialSize(header: seq<byte>): nat
    requires |header| >= HEADER_SIZE
  {
    Word32(header[..4])
  }

  function WireSize(header: seq<byte>): nat
    requires |header| >= HEADER_SIZE
  {
    Word32(header[4..8])
  }

  // Equality of the two size words is the only mark of a payload that was not compressed.
  function Plain<M>(lib: Primitives<M>, header: seq<byte>, payload: seq<byte>): seq<byte>
    requires |header| >= HEADER_SIZE
  {
    if SerialSize(header) == |payload| then payload else lib.decompress(payload, SerialSize(header))
  }

  // The object in a complete frame; None where the decoder's assertions fail.
  function Open<M>(lib: Primitives<M>, header: seq<byte>, payload: seq<byte>): Option<M>
    requires |header| >= HEADER_SIZE
  {
    var plain := Plain(lib, header, payload);
    if lib.digest(plain) == header[8..HEADER_SIZE] then lib.parse(plain) else None
  }

  datatype Verdict = Waiting | Fault | Spin

  // `rest` is what follows the last message that was decoded.
  datatype Scanned<M> = Scanned(messages: seq<M>, rest: seq<byte>, verdict: Verdict)

  // Parses a whole stream. It stops before an incomplete frame (Waiting), at a frame on which an
  // assertion of the decoder fails (Fault), or at a header that announces an empty payload and is
  // followed by more bytes, on which the decoder would recurse for ever (Spin).
  function Scan<M>(lib: Primitives<M>, s: seq<byte>): Scanned<M>
    decreases |s|
  {
    if |s| <= HEADER_SIZE then Scanned([], s, Waiting)
    else
      var w := WireSize(s);
      if w == 0 then Scanned([], s, Spin)
      else if |s| < HEADER_SIZE + w then Scanned([], s, Waiting)
      else match Open(lib, s[..HEADER_SIZE], s[HEADER_SIZE..HEADER_SIZE + w])
           case None => Scanned([], s, Fault)
           case Some(m) =>
             Prepend([m], Scan(lib, s[HEADER_SIZE + w..]))
  }

  // The result of a scan with messages put before its own.
  function Prepend<M>(ms: seq<M>, r: Scanned<M>): Scanned<M> {
    Scanned(ms + r.messages, r.rest, r.verdict)
  }

  // What reading `b` after a first part must amount to.
  function Continue<M>(lib: Primitives<M>, first: Scanned<M>, b: seq<byte>): Scanned<M> {
    if first.verdict.Waiting? then Prepend(first.messages, Scan(lib, first.rest + b))
    else first.(rest := first.rest + b)
  }

  lemma PrependAssociates<M>(a: seq<M>, b: seq<M>, r: Scanned<M>)
    ensures Prepend(a, Prepend(b, r)) == Prepend(a + b, r)
    ensures Prepend([], r) == r
  {
    assert a + (b + r.messages) == (a + b) + r.messages;
    assert [] + r.messages == r.messages;
  }

  // A frame at the head of `s` stays there when `s` is extended.
  lemma HeadStays(s: seq<byte>, t: seq<byte>, n: nat)
    requires HEADER_SIZE <= n <= |s|
    ensures (s + t)[..HEADER_SIZE] == s[..HEADER_SIZE]
    ensures (s + t)[HEADER_SIZE..n] == s[HEADER_SIZE..n]
    ensures (s + t)[n..] == s[n..] + t
    ensures WireSize(s + t) == WireSize(s)
  {
    assert (s + t)[4..8] == s[4..8];
  }

  // The stream starts with a complete frame.
  predicate HasFrame(s: seq<byte>) {
    |s| > HEADER_SIZE && 0 < WireSize(s) <= |s| - HEADER_SIZE
  }

  // What the parser makes of a stream that starts with a complete frame: the frame's object, or a
  // fault, depends on nothing behind the frame.
  lemma FirstFrame<M>(lib: Primitives<M>, a: seq<byte>, b: seq<byte>, n: nat)
    requires HasFrame(a) && n == HEADER_SIZE + WireSize(a)
    ensures var head := Open(lib, a[..HEADER_SIZE], a[HEADER_SIZE..n]);
            Scan(lib, a + b) == if head.None? then Scanned([], a + b, Fault)
                                else Prepend([head.value], Scan(lib, a[n..] + b))
  {
    HeadStays(a, b, HEADER_SIZE);
    HeadStays(a, b, n);
  }

  lemma FirstFrameOf<M>(lib: Primitives<M>, a: seq<byte>, n: nat)
    requires HasFrame(a) && n == HEADER_SIZE + WireSize(a)
    ensures var head := Open(lib, a[..HEADER_SIZE], a[HEADER_SIZE..n]);
            Scan(lib, a) == if head.None? then Scanned([], a, Fault)
                            else Prepend([head.value], Scan(lib, a[n..]))
  {
  }

  lemma NoFrameAppend<M>(lib: Primitives<M>, a: seq<byte>, b: seq<byte>)
    requires !HasFrame(a)
    ensures Scan(lib, a + b) == Continue(lib, Scan(lib, a), b)
  {
    PrependAssociates([], [], Scan(lib, a + b));
    if |a| > HEADER_SIZE {
      HeadStays(a, b, HEADER_SIZE);
    }
  }

  // The parser does not see where a stream is cut.
  lemma {:induction false} ScanAppend<M>(lib: Primitives<M>, a: seq<byte>, b: seq<byte>)
    ensures Scan(lib, a + b) == Continue(lib, Scan(lib, a), b)
    decreases |a|
  {
    if HasFrame(a) {
      var n := HEADER_SIZE + WireSize(a);
      FirstFrame(lib, a, b, n);
      FirstFrameOf(lib, a, n);
      var head := Open(lib, a[..HEADER_SIZE], a[HEADER_SIZE..n]);
      if head.Some? {
        ScanAppend(lib, a[n..], b);
        var first := Scan(lib, a[n..]);
        PrependAssociates([head.value], first.messages, Scan(lib, first.rest + b));
      }
    } else {
      NoFrameAppend(lib, a, b);
    }
  }

  // ---------------------------------------------------------------- round trips

  lemma Fields<T>(a: seq<T>, b: seq<T>, d: seq<T>, t: seq<T>)
    requires |a| == 4 && |b| == 4 && |d| == 32
    ensures (a + b + d + t)[..4] == a
    ensures (a + b + d + t)[4..8] == b
    ensures (a + b + d + t)[8..HEADER_SIZE] == d
  {
  }

  lemma HeaderFields<M>(lib: Primitives<M>, plain: seq<byte>, wireSize: nat, t: seq<byte>)
    requires lib.Lawful() && |plain| < U32 && wireSize < U32
    ensures var h := Header(lib, plain, wireSize);
            && |h| == HEADER_SIZE
            && SerialSize(h + t) == |plain| && WireSize(h + t) == wireSize
            && (h + t)[8..HEADER_SIZE] == lib.digest(plain)
  {
    Fields(BigEndian32(|plain|), BigEndian32(wireSize), lib.digest(plain), t);
    Word32OfBigEndian32(|plain|);
    Word32OfBigEndian32(wireSize);
  }

  // The two size words of a frame are equal exactly when its payload is the plain text, so the
  // reader recovers the plain text, its digest matches, and a frame never outgrows its text by
  // more than the header.
  lemma FrameRoundTrip<M>(lib: Primitives<M>, plain: seq<byte>)
    requires lib.Lawful() && 0 < |plain| < U32
    ensures var f := Frame(lib, plain);
            && HEADER_SIZE < |f| <= HEADER_SIZE + |plain|
            && WireSize(f) == |f| - HEADER_SIZE
            && SerialSize(f) == |plain|
            && (SerialSize(f) == WireSize(f) <==> f[HEADER_SIZE..] == plain)
            && Plain(lib, f[..HEADER_SIZE], f[HEADER_SIZE..]) == plain
            && Open(lib, f[..HEADER_SIZE], f[HEADER_SIZE..]) == lib.parse(plain)
  {
    var f := Frame(lib, plain);
    var p := Payload(lib, plain);
    HeaderFields(lib, plain, |p|, p);
    HeaderFields(lib, plain, |p|, []);
    var h := Header(lib, plain, |p|);
    assert h + [] == h;
    assert f[..HEADER_SIZE] == h;
    assert f[HEADER_SIZE..] == p;
  }

  // The smaller form is sent: the compressed text if it is shorter than the text, else the text. This
  // is so for texts of every size.
  lemma SmallerFormIsSent<M>(lib: Primitives<M>, plain: seq<byte>)
    requires lib.Lawful()
    ensures var f, packed := Frame(lib, plain), lib.compress(plain);
            && |f| == HEADER_SIZE + (if |packed| < |plain| then |packed| else |plain|)
            && (|packed| < |plain| ==> f[HEADER_SIZE..] == packed)
            && (|packed| >= |plain| ==> f[HEADER_SIZE..] == plain)
            && WireSize(f) == Truncate32(|f| - HEADER_SIZE) && SerialSize(f) == Truncate32(|plain|)
  {
    var p := Payload(lib, plain);
    var a, b := BigEndian32(Truncate32(|plain|)), BigEndian32(Truncate32(|p|));
    Fields(a, b, lib.digest(plain), p);
    Word32OfBigEndian32(Truncate32(|plain|));
    Word32OfBigEndian32(Truncate32(|p|));
    assert (a + b + lib.digest(plain) + p)[HEADER_SIZE..] == p;
  }

  // A sender may also compress a text that grows: as long as the sizes differ it is understood.
  lemma PackedIsUnderstood<M>(lib: Primitives<M>, plain: seq<byte>)
    requires lib.Lawful() && |plain| < U32
    requires var packed := lib.compress(plain); |packed| != |plain| && |packed| < U32
    ensures var packed := lib.compress(plain);
            Open(lib, Header(lib, plain, |packed|), packed) == lib.parse(plain)
  {
    var packed := lib.compress(plain);
    HeaderFields(lib, plain, |packed|, []);
    var h := Header(lib, plain, |packed|);
    assert h + [] == h;
  }

  // ---------------------------------------------------------------- streams of packages

  // A package under way, and the object the reader is to make of it.
  datatype Package<M> = Package(frame: seq<byte>, item: M)

  ghost predicate WellFramed<M>(lib: Primitives<M>, p: Package<M>) {
    && HEADER_SIZE < |p.frame| == HEADER_SIZE + WireSize(p.frame)
    && Open(lib, p.frame[..HEADER_SIZE], p.frame[HEADER_SIZE..]) == Some(p.item)
  }

  ghost predicate AllFramed<M>(lib: Primitives<M>, ps: seq<Package<M>>) {
    forall i :: 0 <= i < |ps| ==> WellFramed(lib, ps[i])
  }

  function Stream<M>(ps: seq<Package<M>>): seq<byte> {
    if ps == [] then [] else ps[0].frame + Stream(ps[1..])
  }

  function Objects<M>(ps: seq<Package<M>>): (ms: seq<M>)
    ensures |ms| == |ps|
  {
    if ps == [] then [] else [ps[0].item] + Objects(ps[1..])
  }

  // What toBytes makes of a serialized message that the reader can parse.
  function Pack<M>(lib: Primitives<M>, plain: seq<byte>): Package<M>
    requires lib.parse(plain).Some?
  {
    Package(Frame(lib, plain), lib.parse(plain).value)
  }

  lemma PackIsWellFramed<M>(lib: Primitives<M>, plain: seq<byte>)
    requires lib.Lawful() && 0 < |plain| < U32 && lib.parse(plain).Some?
    ensures WellFramed(lib, Pack(lib, plain))
  {
    FrameRoundTrip(lib, plain);
  }

  // A proper prefix of a frame.
  predicate Incomplete(s: seq<byte>) {
    |s| < HEADER_SIZE || (WireSize(s) > 0 && |s| < HEADER_SIZE + WireSize(s))
  }

  lemma ScanOne<M>(lib: Primitives<M>, p: Package<M>)
    requires WellFramed(lib, p)
    ensures Scan(lib, p.frame) == Scanned([p.item], [], Waiting)
  {
    assert p.frame[HEADER_SIZE..|p.frame|] == p.frame[HEADER_SIZE..];
    assert p.frame[|p.frame|..] == [];
  }

  lemma ScanPackage<M>(lib: Primitives<M>, p: Package<M>, more: seq<byte>)
    requires WellFramed(lib, p)
    ensures Scan(lib, p.frame + more) == Prepend([p.item], Scan(lib, more))
  {
    ScanOne(lib, p);
    ScanAppend(lib, p.frame, more);
    assert [] + more == more;
  }

  lemma {:induction false} ScanStream<M>(lib: Primitives<M>, ps: seq<Package<M>>, tail: seq<byte>)
    requires AllFramed(lib, ps)
    ensures Scan(lib, Stream(ps) + tail) == Prepend(Objects(ps), Scan(lib, tail))
  {
    var r := Scan(lib, tail);
    if ps == [] {
      assert Stream(ps) + tail == tail;
      PrependAssociates([], [], r);
    } else {
      Associates(ps[0].frame, Stream(ps[1..]), tail);
      ScanPackage(lib, ps[0], Stream(ps[1..]) + tail);
      ScanStream(lib, ps[1..], tail);
      PrependAssociates([ps[0].item], Objects(ps[1..]), r);
    }
  }

  lemma {:induction false} StreamAppend<M>(a: seq<Package<M>>, b: seq<Package<M>>)
    ensures Stream(a + b) == Stream(a) + Stream(b)
    ensures Objects(a + b) == Objects(a) + Objects(b)
  {
    if a == [] {
      assert a + b == b;
    } else {
      assert (a + b)[1..] == a[1..] + b;
      StreamAppend(a[1..], b);
      Associates(a[0].frame, Stream(a[1..]), Stream(b));
      Associates([a[0].item], Objects(a[1..]), Objects(b));
    }
  }

  // ---------------------------------------------------------------- altered frames

  lemma SameHeadWords(a: seq<byte>, b: seq<byte>)
    requires |a| == |b| >= HEADER_SIZE && a[..8] == b[..8]
    ensures SerialSize(a) == SerialSize(b) && WireSize(a) == WireSize(b)
    ensures SerialSize(a[..HEADER_SIZE]) == SerialSize(a) && a[..HEADER_SIZE][8..HEADER_SIZE] == a[8..HEADER_SIZE]
  {
    assert a[..4] == a[..8][..4] && a[4..8] == a[..8][4..8];
    assert a[..HEADER_SIZE][..4] == a[..4];
  }

  lemma FaultInFront<M>(lib: Primitives<M>, f: seq<byte>, more: seq<byte>)
    requires |f| > HEADER_SIZE && WireSize(f) == |f| - HEADER_SIZE
    requires Open(lib, f[..HEADER_SIZE], f[HEADER_SIZE..]).None?
    ensures Scan(lib, f + more) == Scanned([], f + more, Fault)
  {
    assert f[HEADER_SIZE..|f|] == f[HEADER_SIZE..];
    FirstFrame(lib, f, more, |f|);
  }

  // A frame whose digest is altered is a fault.
  lemma AlteredDigestIsFault<M>(lib: Primitives<M>, p: Package<M>, f: seq<byte>, more: seq<byte>)
    requires WellFramed(lib, p) && |f| == |p.frame|
    requires f[..8] == p.frame[..8] && f[8..HEADER_SIZE] != p.frame[8..HEADER_SIZE]
    requires f[HEADER_SIZE..] == p.frame[HEADER_SIZE..]
    ensures Scan(lib, f + more) == Scanned([], f + more, Fault)
  {
    SameHeadWords(f, p.frame);
    SameHeadWords(p.frame, f);
    FaultInFront(lib, f, more);
  }

  // So is one whose raw payload is altered, unless the other payload has the same digest.
  lemma AlteredTextIsFault<M>(lib: Primitives<M>, p: Package<M>, f: seq<byte>, more: seq<byte>)
    requires WellFramed(lib, p) && |f| == |p.frame| && SerialSize(p.frame) == WireSize(p.frame)
    requires f[..HEADER_SIZE] == p.frame[..HEADER_SIZE]
    requires lib.digest(f[HEADER_SIZE..]) != lib.digest(p.frame[HEADER_SIZE..])
    ensures Scan(lib, f + more) == Scanned([], f + more, Fault)
  {
    assert f[..8] == f[..HEADER_SIZE][..8] && p.frame[..8] == p.frame[..HEADER_SIZE][..8];
    SameHeadWords(f, p.frame);
    SameHeadWords(p.frame, f);
    FaultInFront(lib, f, more);
  }
}
