// A small codec that meets the contracts of the foreign primitives, so they are consistent: runs
// of zeros are compressed to one octet, the digest is constant, and every text is an object.
module SampleCodec {
  import opened Bytes
  import opened Frames

  function Squeeze(x: seq<byte>): seq<byte> {
    if x != [] && x == Zeros(|x|) then [0] else [1] + x
  }

  function Expand(c: seq<byte>, capacity: nat): seq<byte> {
    if c == [0] then Zeros(capacity) else if c == [] then [] else c[1..]
  }

  function Sample(): Primitives<seq<byte>> {
    Primitives(_ => Zeros(32), x => Squeeze(x), (c, n) => Expand(c, n), x => Some(x))
  }

  lemma SqueezeExpands()
    ensures forall x: seq<byte> :: Expand(Squeeze(x), |x|) == x && |Squeeze(x)| > 0
  {
    forall x: seq<byte> ensures Expand(Squeeze(x), |x|) == x && |Squeeze(x)| > 0 {
      if Squeeze(x) != [0] { assert Squeeze(x)[1..] == x; }
    }
  }

  lemma SampleIsLawful()
    ensures Sample().Lawful()
  {
    SqueezeExpands();
  }

  // Five zeros are sent in 41 octets, the sizes 5 and 1 in network order first; two other octets are
  // sent as they are.
  lemma SampleFrames()
    ensures var f := Frame(Sample(), Zeros(5)); |f| == 41 && f[..8] == [0, 0, 0, 5, 0, 0, 0, 1] && f[40] == 0
    ensures var f := Frame(Sample(), [7, 9]); |f| == 42 && f[..8] == [0, 0, 0, 2, 0, 0, 0, 2] && f[40..] == [7, 9]
  {
    assert [7, 9][0] != Zeros(2)[0];
  }
}
