// The machine UUID: the walk over the SMBIOS structure table and the text of the UUID
// (DMTF DSP0134, sections 6.1.2, 6.1.3 and 7.2.1).
module Smbios {
  import opened Bytes

  // ---------------------------------------------------------------- the structure table

  // A structure: its formatted area, whose second octet is its length, and its strings.
  datatype Structure = Structure(formatted: seq<byte>, strings: seq<seq<byte>>)

  predicate Nonzero(s: seq<byte>) { s != [] && 0 !in s }

  predicate WellFormed(s: Structure) {
    && 4 <= |s.formatted| < 256
    && s.formatted[1] == |s.formatted|
    && forall i :: 0 <= i < |s.strings| ==> Nonzero(s.strings[i])
  }

  predicate AllWellFormed(ss: seq<Structure>) {
    forall i :: 0 <= i < |ss| ==> WellFormed(ss[i])
  }

  function Terminated(text: seq<byte>): (b: seq<byte>)
    ensures |b| == |text| + 1
  {
    text + [0]
  }

  function Strings(strings: seq<seq<byte>>): (b: seq<byte>)
    ensures |b| >= 1
  {
    if strings == [] then [0] else Terminated(strings[0]) + Strings(strings[1..])
  }

  // Every string has a terminator, and one more octet ends the set; two octets stand for no strings.
  function StringSet(strings: seq<seq<byte>>): (b: seq<byte>)
    ensures |b| >= 2
  {
    if strings == [] then [0, 0] else Strings(strings)
  }

  function Encoded(s: Structure): (b: seq<byte>)
    ensures |b| == |s.formatted| + |StringSet(s.strings)|
  {
    s.formatted + StringSet(s.strings)
  }

  function Table(ss: seq<Structure>): seq<byte> {
    if ss == [] then [] else Encoded(ss[0]) + Table(ss[1..])
  }

  const SYSTEM_INFORMATION := 1

  predicate IsSystem(s: Structure) { s.formatted != [] && s.formatted[0] == SYSTEM_INFORMATION }

  // The number of structures before the first system information structure.
  function FirstSystem(ss: seq<Structure>): (k: nat)
    ensures k <= |ss| && (k < |ss| ==> IsSystem(ss[k]))
    ensures forall i :: 0 <= i < k ==> !IsSystem(ss[i])
  {
    if ss == [] || IsSystem(ss[0]) then 0 else 1 + FirstSystem(ss[1..])
  }

  // ---------------------------------------------------------------- the walk

  // The first two zero octets in a row from p on.
  function PairAt(t: seq<byte>, p: nat): (q: Option<nat>)
    ensures q.Some? ==> p <= q.value && q.value + 1 < |t|
    decreases |t| - p
  {
    if p + 1 >= |t| then None else if t[p] == 0 && t[p + 1] == 0 then Some(p) else PairAt(t, p + 1)
  }

  datatype Walked = Found(at: nat) | NotFound | Outside

  // At most n structures from p on; Outside if the walk reads past the end of the table.
  function Walk(t: seq<byte>, p: nat, n: nat): Walked
    decreases n
  {
    if n == 0 then NotFound
    else if p >= |t| then Outside
    else if t[p] == SYSTEM_INFORMATION then Found(p)
    else if p + 1 >= |t| then Outside
    else
      var q := PairAt(t, p + t[p + 1]);
      if q.None? then Outside else Walk(t, q.value + 2, n - 1)
  }

  // The octets a stand in the table from p on.
  ghost predicate At(t: seq<byte>, p: nat, a: seq<byte>) {
    p + |a| <= |t| && forall k :: 0 <= k < |a| ==> t[p + k] == a[k]
  }

  lemma AtSplit(t: seq<byte>, p: nat, a: seq<byte>, b: seq<byte>)
    requires At(t, p, a + b)
    ensures At(t, p, a) && At(t, p + |a|, b)
  {
    forall k | 0 <= k < |a| ensures t[p + k] == a[k] { assert (a + b)[k] == a[k]; }
    forall k | 0 <= k < |b| ensures t[p + |a| + k] == b[k] { assert (a + b)[|a| + k] == b[k]; }
  }

  lemma {:induction false} SkipText(t: seq<byte>, p: nat, q: nat)
    requires p <= q < |t| && forall i :: p <= i < q ==> t[i] != 0
    ensures PairAt(t, p) == PairAt(t, q)
    decreases q - p
  {
    if p < q {
      SkipText(t, p + 1, q);
    }
  }

  lemma OneText(t: seq<byte>, p: nat, text: seq<byte>)
    requires Nonzero(text) && At(t, p, Terminated(text))
    ensures t[p + |text|] == 0 && PairAt(t, p) == PairAt(t, p + |text|)
  {
    AtSplit(t, p, text, [0]);
    assert [0][0] == 0;
    forall i | p <= i < p + |text| ensures t[i] != 0 { assert text[i - p] in text; }
    SkipText(t, p, p + |text|);
  }

  // The double zero that the walk finds is the end of the set, not something inside a string.
  lemma {:induction false} EndOfStrings(t: seq<byte>, p: nat, strings: seq<seq<byte>>)
    requires strings != [] && forall i :: 0 <= i < |strings| ==> Nonzero(strings[i])
    requires At(t, p, Strings(strings))
    ensures PairAt(t, p) == Some(p + |Strings(strings)| - 2)
    decreases |strings|
  {
    var text, others := strings[0], strings[1..];
    AtSplit(t, p, Terminated(text), Strings(others));
    OneText(t, p, text);
    var next := Strings(others)[0];
    assert t[p + |text| + 1] == next;
    if others != [] {
      assert next == others[0][0] && others[0][0] in others[0];
      EndOfStrings(t, p + |text| + 1, others);
    }
  }

  lemma EndOfSet(t: seq<byte>, p: nat, strings: seq<seq<byte>>)
    requires forall i :: 0 <= i < |strings| ==> Nonzero(strings[i])
    requires At(t, p, StringSet(strings))
    ensures PairAt(t, p) == Some(p + |StringSet(strings)| - 2)
  {
    if strings == [] {
      assert [0, 0][0] == 0 && [0, 0][1] == 0;
    } else {
      EndOfStrings(t, p, strings);
    }
  }

  // What the walk sees of a structure at p: its type, and where it ends.
  ghost predicate Sees(t: seq<byte>, p: nat, s: Structure) {
    && p + 1 < |t| && (t[p] == SYSTEM_INFORMATION <==> IsSystem(s))
    && PairAt(t, p + t[p + 1]) == Some(p + |Encoded(s)| - 2)
  }

  // One round of the walk passes exactly one structure.
  lemma PassStructure(t: seq<byte>, p: nat, s: Structure)
    requires WellFormed(s) && At(t, p, Encoded(s))
    ensures Sees(t, p, s)
  {
    AtSplit(t, p, s.formatted, StringSet(s.strings));
    assert t[p + 0] == s.formatted[0] && t[p + 1] == s.formatted[1];
    EndOfSet(t, p + |s.formatted|, s.strings);
  }

  ghost predicate Laid(t: seq<byte>, p: nat, ss: seq<Structure>)
    decreases |ss|
  {
    if ss == [] then p == |t|
    else Sees(t, p, ss[0]) && Laid(t, p + |Encoded(ss[0])|, ss[1..])
  }

  lemma {:induction false} TableIsLaid(t: seq<byte>, p: nat, ss: seq<Structure>)
    requires AllWellFormed(ss) && At(t, p, Table(ss)) && p + |Table(ss)| == |t|
    ensures Laid(t, p, ss)
    decreases |ss|
  {
    if ss != [] {
      AtSplit(t, p, Encoded(ss[0]), Table(ss[1..]));
      PassStructure(t, p, ss[0]);
      TableIsLaid(t, p + |Encoded(ss[0])|, ss[1..]);
    }
  }

  lemma {:induction false} WalkFrom(t: seq<byte>, p: nat, ss: seq<Structure>, n: nat)
    requires Laid(t, p, ss) && n > |ss|
    ensures Walk(t, p, n) == Destination(p, ss)
    decreases |ss|
  {
    if ss != [] && !IsSystem(ss[0]) {
      WalkFrom(t, p + |Encoded(ss[0])|, ss[1..], n - 1);
    }
  }

  // Where a walk over the structures that starts at p gets to.
  function Destination(p: nat, ss: seq<Structure>): Walked
    decreases |ss|
  {
    if ss == [] then Outside
    else if IsSystem(ss[0]) then Found(p)
    else Destination(p + |Encoded(ss[0])|, ss[1..])
  }

  lemma TableFront(ss: seq<Structure>, k: nat)
    requires 0 < k <= |ss|
    ensures |Table(ss[..k])| == |Encoded(ss[0])| + |Table(ss[1..][..k - 1])|
  {
    assert ss[..k][1..] == ss[1..][..k - 1];
  }

  lemma {:induction false} DestinationIsFirstSystem(p: nat, ss: seq<Structure>)
    ensures var k := FirstSystem(ss);
            Destination(p, ss) == if k < |ss| then Found(p + |Table(ss[..k])|) else Outside
    decreases |ss|
  {
    var k := FirstSystem(ss);
    if k > 0 {
      DestinationIsFirstSystem(p + |Encoded(ss[0])|, ss[1..]);
      TableFront(ss, k);
    } else {
      assert ss[..0] == [];
    }
  }

  lemma {:induction false} TableIsLong(ss: seq<Structure>)
    requires AllWellFormed(ss)
    ensures |Table(ss)| >= 6 * |ss|
  {
    if ss != [] {
      TableIsLong(ss[1..]);
    }
  }

  // On a well-formed table the walk stops at the first system information structure, before its
  // bound on the number of rounds is reached; without one it leaves the table.
  lemma WalkIsExact(ss: seq<Structure>)
    requires AllWellFormed(ss) && ss != []
    ensures var k := FirstSystem(ss); var t := Table(ss);
            Walk(t, 0, |t|) == if k < |ss| then Found(|Table(ss[..k])|) else Outside
  {
    TableIsLong(ss);
    var t := Table(ss);
    TableIsLaid(t, 0, ss);
    WalkFrom(t, 0, ss, |t|);
    DestinationIsFirstSystem(0, ss);
  }

  lemma {:induction false} TableSplits(ss: seq<Structure>, k: nat)
    requires k <= |ss|
    ensures Table(ss) == Table(ss[..k]) + Table(ss[k..])
  {
    if k > 0 {
      TableSplits(ss[1..], k - 1);
      assert ss[..k][1..] == ss[1..][..k - 1] && ss[k..] == ss[1..][k - 1..];
      Associates(Encoded(ss[0]), Table(ss[1..][..k - 1]), Table(ss[k..]));
    } else {
      assert ss[..0] == [] && ss[0..] == ss && [] + Table(ss) == Table(ss);
    }
  }

  lemma StructureAt(ss: seq<Structure>, k: nat)
    requires k < |ss|
    ensures var p, n, t := |Table(ss[..k])|, |ss[k].formatted|, Table(ss);
            p + n <= |t| && t[p..p + n] == ss[k].formatted
  {
    TableSplits(ss, k);
    var p, n, back := |Table(ss[..k])|, |ss[k].formatted|, Table(ss[k..]);
    assert back[..n] == ss[k].formatted;
    assert Table(ss)[p..p + n] == back[..n];
  }

  // ---------------------------------------------------------------- the text

  function HexDigit(d: nat): char
    requires d < 16
  {
    if d < 10 then '0' + d as char else 'A' + (d - 10) as char
  }

  // What %02X prints.
  function Octet(b: byte): string { [HexDigit(b / 16), HexDigit(b % 16)] }

  function Hex(b: seq<byte>): string {
    if b == [] then "" else Octet(b[0]) + Hex(b[1..])
  }

  function Dashed(u: seq<byte>): string
    requires |u| == 16
  {
    Hex(u[..4]) + ("-" + (Hex(u[4..6]) + ("-" + (Hex(u[6..8]) + ("-" + (Hex(u[8..10]) + ("-" + Hex(u[10..]))))))))
  }

  // The first three fields in the other byte order.
  function Swapped(u: seq<byte>): (v: seq<byte>)
    requires |u| == 16
    ensures |v| == 16
  {
    [u[3], u[2], u[1], u[0], u[5], u[4], u[7], u[6]] + u[8..]
  }

  const WIRE_ORDER_SINCE := 0x0206

  // Before version 2.6 the octets are in the order of the table, behind an extra dash.
  function UuidText(u: seq<byte>, version: int): string
    requires |u| == 16
  {
    if version >= WIRE_ORDER_SINCE then Dashed(Swapped(u)) else "-" + Dashed(u)
  }

  function DigitOf(c: char): nat {
    if '0' <= c <= '9' then c as int - '0' as int
    else if 'A' <= c <= 'F' then c as int - 'A' as int + 10
    else 0
  }

  // The octets that a text of digits and dashes denotes.
  function Octets(s: string): seq<byte> {
    if s == "" then []
    else if s[0] == '-' then Octets(s[1..])
    else if |s| == 1 then []
    else [DigitOf(s[0]) * 16 + DigitOf(s[1])] + Octets(s[2..])
  }

  lemma OctetsOfOctet(b: byte, rest: string)
    ensures Octets(Octet(b) + rest) == [b] + Octets(rest)
  {
    var s := Octet(b) + rest;
    assert s[2..] == rest;
    assert s[0] != '-' && DigitOf(s[0]) == b / 16 && DigitOf(s[1]) == b % 16;
  }

  lemma {:induction false} HexDigits(b: seq<byte>)
    ensures |Hex(b)| == 2 * |b| && '-' !in Hex(b)
  {
    if b != [] {
      HexDigits(b[1..]);
    }
  }

  lemma OctetInFront(b: seq<byte>, tail: string, rest: seq<byte>)
    requires b != [] && Octets(tail) == b[1..] + rest
    ensures Octets(Octet(b[0]) + tail) == b + rest
  {
    OctetsOfOctet(b[0], tail);
    assert [b[0]] + (b[1..] + rest) == b + rest;
  }

  // Digits in front of the rest denote the octets in front of the rest.
  lemma {:induction false} OctetsOfHex(b: seq<byte>, s: string, rest: string)
    requires s == Hex(b) + rest
    ensures Octets(s) == b + Octets(rest)
  {
    if b == [] {
      assert s == rest;
    } else {
      var tail := Hex(b[1..]) + rest;
      assert s == Octet(b[0]) + tail;
      OctetsOfHex(b[1..], tail, rest);
      OctetInFront(b, tail, Octets(rest));
    }
  }

  lemma OctetsOfDash(rest: string)
    ensures Octets("-" + rest) == Octets(rest)
  {
    assert ("-" + rest)[1..] == rest;
  }

  lemma OctetsOfField(b: seq<byte>, rest: string)
    ensures Octets(Hex(b) + ("-" + rest)) == b + Octets(rest)
    ensures |Hex(b) + ("-" + rest)| == 2 * |b| + 1 + |rest|
  {
    OctetsOfHex(b, Hex(b) + ("-" + rest), "-" + rest);
    HexDigits(b);
    OctetsOfDash(rest);
  }

  lemma OctetsOfDashed(u: seq<byte>)
    requires |u| == 16
    ensures Octets(Dashed(u)) == u && |Dashed(u)| == 36
  {
    var e := Hex(u[10..]);
    LastField(u[10..]);
    var d := Hex(u[8..10]) + ("-" + e);
    OctetsOfField(u[8..10], e);
    var c := Hex(u[6..8]) + ("-" + d);
    OctetsOfField(u[6..8], d);
    var b := Hex(u[4..6]) + ("-" + c);
    OctetsOfField(u[4..6], c);
    OctetsOfField(u[..4], b);
    FiveFields(u);
  }

  lemma LastField(b: seq<byte>)
    ensures Octets(Hex(b)) == b && |Hex(b)| == 2 * |b|
  {
    OctetsOfHex(b, Hex(b), "");
    HexDigits(b);
    assert Hex(b) + "" == Hex(b) && b + [] == b;
  }

  lemma FiveFields(u: seq<byte>)
    requires |u| == 16
    ensures u[..4] + (u[4..6] + (u[6..8] + (u[8..10] + u[10..]))) == u
  {
  }

  // Reading the text gives back the octets, so different machines have different texts; and the
  // text fits in the buffer.
  lemma TextKeepsTheUuid(u: seq<byte>, version: int)
    requires |u| == 16
    ensures Octets(UuidText(u, version)) == if version >= WIRE_ORDER_SINCE then Swapped(u) else u
    ensures Swapped(Swapped(u)) == u
    ensures |UuidText(u, version)| == if version >= WIRE_ORDER_SINCE then 36 else 37
  {
    OctetsOfDashed(u);
    OctetsOfDashed(Swapped(u));
    OctetsOfDash(Dashed(u));
  }

  // ---------------------------------------------------------------- the form of the text

  predicate DashAt(k: nat) { k == 8 || k == 13 || k == 18 || k == 23 }

  lemma FiveParts(a: string, b: string, c: string, d: string, e: string, k: nat)
    requires |a| == 8 && |b| == |c| == |d| == 4 && |e| == 12 && k < 36
    requires '-' !in a && '-' !in b && '-' !in c && '-' !in d && '-' !in e
    ensures (a + ("-" + (b + ("-" + (c + ("-" + (d + ("-" + e))))))))[k] == '-' <==> DashAt(k)
  {
    var text := a + ("-" + (b + ("-" + (c + ("-" + (d + ("-" + e)))))));
    assert text[k] == if k < 8 then a[k] else if k == 8 then '-' else if k < 13 then b[k - 9]
                      else if k == 13 then '-' else if k < 18 then c[k - 14] else if k == 18 then '-'
                      else if k < 23 then d[k - 19] else if k == 23 then '-' else e[k - 24];
  }

  // Four dashes, and hexadecimal digits at the other places.
  lemma DashesOfDashed(u: seq<byte>, k: nat)
    requires |u| == 16 && k < 36
    ensures |Dashed(u)| == 36 && (Dashed(u)[k] == '-' <==> DashAt(k))
  {
    OctetsOfDashed(u);
    HexDigits(u[..4]);
    HexDigits(u[4..6]);
    HexDigits(u[6..8]);
    HexDigits(u[8..10]);
    HexDigits(u[10..]);
    FiveParts(Hex(u[..4]), Hex(u[4..6]), Hex(u[6..8]), Hex(u[8..10]), Hex(u[10..]), k);
  }

  function LittleEndian32(n: nat): (b: seq<byte>)
    requires n < U32
    ensures |b| == 4
  {
    [n % 0x100, n / 0x100 % 0x100, n / 0x1_0000 % 0x100, n / 0x100_0000]
  }

  function LittleEndian16(n: nat): (b: seq<byte>)
    requires n < 0x1_0000
    ensures |b| == 2
  {
    [n % 0x100, n / 0x100]
  }

  // The three numbers of a UUID are stored with the least significant octet first, and the text since
  // version 2.6 shows them with the most significant one first; the other octets are not numbers.
  lemma SwappedNumbers(low: nat, mid: nat, high: nat, others: seq<byte>)
    requires low < U32 && mid < 0x1_0000 && high < 0x1_0000 && |others| == 8
    ensures Swapped(LittleEndian32(low) + LittleEndian16(mid) + LittleEndian16(high) + others)
         == BigEndian32(low) + [mid / 0x100, mid % 0x100] + [high / 0x100, high % 0x100] + others
  {
    assert low / 0x100 / 0x100 == low / 0x1_0000 && low / 0x1_0000 / 0x100 == low / 0x100_0000;
  }

  // ---------------------------------------------------------------- the methods

  const UUID_LENGTH := 36

  predicate Uniform(u: seq<byte>, value: byte) { forall i :: 0 <= i < |u| ==> u[i] == value }

  // An unset UUID has 16 octets 0xFF or 16 octets 0x00.
  predicate Unset(u: seq<byte>) { Uniform(u, 0xFF) || Uniform(u, 0x00) }

  lemma UnsetValues(u: seq<byte>)
    requires |u| == 16
    ensures Unset(u) <==> u == Zeros(16) || u == seq(16, _ => 0xFF)
  {
    assert Uniform(u, 0xFF) ==> u == seq(16, _ => 0xFF);
    assert Uniform(u, 0x00) ==> u == Zeros(16);
  }

  // snprintf: at most n - 1 characters and a terminator.
  method Snprintf(buffer: array<char>, n: nat, text: string)
    requires 0 < n <= buffer.Length
    modifies buffer
    ensures var m := if |text| < n then |text| else n - 1;
            buffer[..m] == text[..m] && buffer[m] == '\0'
  {
    var m := if |text| < n then |text| else n - 1;
    var i := 0;
    while i < m
      invariant 0 <= i <= m && buffer[..i] == text[..i]
    {
      buffer[i] := text[i];
      i := i + 1;
    }
    buffer[m] := '\0';
    assert buffer[..m] == text[..m];
  }

  // The arguments that the two formats get, in the order of printing.
  method FormatUuid(p: seq<byte>, version: int) returns (text: string)
    requires |p| == 16
    ensures text == UuidText(p, version)
  {
    if version >= WIRE_ORDER_SINCE {
      var arguments := [p[3], p[2], p[1], p[0], p[5], p[4], p[7], p[6],
                        p[8], p[9], p[10], p[11], p[12], p[13], p[14], p[15]];
      assert arguments == Swapped(p);
      text := Dashed(arguments);
    } else {
      text := "-" + Dashed(p);
    }
  }

  lemma UniformStep(p: seq<byte>, i: nat, v: byte)
    requires i < |p|
    ensures Uniform(p[..i + 1], v) <==> Uniform(p[..i], v) && p[i] == v
  {
    assert p[..i + 1][i] == p[i] && p[..i + 1][..i] == p[..i];
    assert forall k :: 0 <= k < i ==> p[..i + 1][k] == p[..i][k];
  }

  lemma UniformPrefix(p: seq<byte>, i: nat, v: byte)
    requires i <= |p|
    ensures Uniform(p, v) ==> Uniform(p[..i], v)
  {
  }

  // The first loop of dmi_system_uuid. It stops as soon as neither value is possible.
  method TestUnset(p: seq<byte>) returns (unset: bool)
    requires |p| == 16
    ensures unset <==> Unset(p)
  {
    var only0xFF, only0x00 := true, true;
    var i := 0;
    while i < 16 && (only0x00 || only0xFF)
      invariant 0 <= i <= 16
      invariant only0xFF <==> Uniform(p[..i], 0xFF)
      invariant only0x00 <==> Uniform(p[..i], 0x00)
    {
      UniformStep(p, i, 0xFF);
      UniformStep(p, i, 0x00);
      if p[i] != 0x00 {
        only0x00 := false;
      }
      if p[i] != 0xFF {
        only0xFF := false;
      }
      i := i + 1;
    }
    UniformPrefix(p, i, 0xFF);
    UniformPrefix(p, i, 0x00);
    assert p[..16] == p;
    unset := only0xFF || only0x00;
  }

  // No UUID exactly if it is unset, although the loop stops early; the text is never cut.
  method DmiSystemUuid(p: seq<byte>, version: int) returns (uuid: array?<char>)
    requires |p| == 16
    ensures uuid == null <==> Unset(p)
    ensures uuid != null ==> fresh(uuid) && HoldsText(uuid, UuidText(p, version))
  {
    var unset := TestUnset(p);
    if unset {
      return null;
    }
    uuid := new char[UUID_LENGTH + 4](_ => '\0');
    TextKeepsTheUuid(p, version);
    var text := FormatUuid(p, version);
    Snprintf(uuid, UUID_LENGTH + 3, text);
    assert text[..|text|] == text;
  }

  // ---------------------------------------------------------------- the raw table

  const RAW_HEADER := 8

  // A 16-bit sum of the two version octets is kept in a signed short.
  function SignedShort(n: nat): int
    requires n < 0x1_0000
  {
    if n < 0x8000 then n else n - 0x1_0000
  }

  function Version(major: byte, minor: byte): int {
    SignedShort(major as int * 0x100 + minor as int)
  }

  // The versions since 2.6. A major version of 128 or more makes the signed short negative.
  predicate Since2Dot6(major: byte, minor: byte) {
    major < 128 && (major > 2 || (major == 2 && minor >= 6))
  }

  lemma VersionOrder(major: byte, minor: byte)
    ensures Version(major, minor) >= WIRE_ORDER_SINCE <==> Since2Dot6(major, minor)
  {
  }

  // What the function gives for the UUID u in a table of this version.
  predicate Shown(text: Option<string>, u: seq<byte>, major: byte, minor: byte)
    requires |u| == 16
  {
    text == if Unset(u) then None
            else if Since2Dot6(major, minor) then Some(Dashed(Swapped(u)))
            else Some("-" + Dashed(u))
  }

  lemma TextByVersion(u: seq<byte>, major: byte, minor: byte)
    requires |u| == 16
    ensures Shown(TextIfSet(u, Version(major, minor)), u, major, minor)
  {
    VersionOrder(major, minor);
  }

  function LengthOf(raw: seq<byte>): nat
    requires |raw| >= RAW_HEADER
  {
    raw[4] as int + raw[5] as int * 0x100 + raw[6] as int * 0x1_0000 + raw[7] as int * 0x100_0000
  }

  // Neither the walk nor the UUID where it ends lies outside the table.
  predicate Inside(t: seq<byte>, w: Walked) {
    w != Outside && (w.Found? ==> w.at + 24 <= |t|)
  }

  ghost predicate StaysInside(t: seq<byte>) {
    Inside(t, Walk(t, 0, |t|))
  }

  function TextIfSet(u: seq<byte>, version: int): Option<string>
    requires |u| == 16
  {
    if Unset(u) then None else Some(UuidText(u, version))
  }

  // The octets of the UUID that the walk finds.
  function UuidAfter(t: seq<byte>, w: Walked): (u: Option<seq<byte>>)
    requires Inside(t, w)
    ensures u.Some? ==> |u.value| == 16
  {
    if w.Found? then Some(t[w.at + 8..w.at + 24]) else None
  }

  function SystemUuid(raw: seq<byte>): Option<string>
    requires |raw| >= RAW_HEADER
    requires LengthOf(raw) == |raw| - RAW_HEADER ==> StaysInside(raw[RAW_HEADER..])
  {
    if LengthOf(raw) != |raw| - RAW_HEADER then None
    else
      var t := raw[RAW_HEADER..];
      var u := UuidAfter(t, Walk(t, 0, |t|));
      if u.None? then None else TextIfSet(u.value, Version(raw[1], raw[2]))
  }

  // The header, the walk or the UUID would be read past the table.
  ghost predicate ReadsOutside(raw: seq<byte>) {
    |raw| < RAW_HEADER || (LengthOf(raw) == |raw| - RAW_HEADER && !StaysInside(raw[RAW_HEADER..]))
  }

  // The leading dash tells the version of the table.
  lemma LeadingDash(raw: seq<byte>)
    requires |raw| >= RAW_HEADER && !ReadsOutside(raw) && SystemUuid(raw).Some?
    ensures |SystemUuid(raw).value| >= 36
    ensures SystemUuid(raw).value[0] == '-' <==> !Since2Dot6(raw[1], raw[2])
  {
    var t := raw[RAW_HEADER..];
    var u := UuidAfter(t, Walk(t, 0, |t|)).value;
    TextByVersion(u, raw[1], raw[2]);
    DashesOfDashed(u, 0);
    DashesOfDashed(Swapped(u), 0);
  }

  // The inner loop: the first two zero octets in a row; None where it would read past the table.
  method FindPair(t: seq<byte>, p: nat) returns (q: Option<nat>)
    ensures q == PairAt(t, p)
  {
    var k := p;
    while k + 1 < |t| && !(t[k] == 0 && t[k + 1] == 0)
      invariant PairAt(t, k) == PairAt(t, p)
      decreases |t| - k
    {
      k := k + 1;
    }
    q := if k + 1 < |t| then Some(k) else None;
  }

  // The outer loop, with the length of the table as the bound on its rounds. It gets where the walk
  // gets, and stops where a read would lie past the table.
  method FindSystem(t: seq<byte>) returns (w: Walked)
    ensures w == Walk(t, 0, |t|)
  {
    var p: nat, i: nat := 0, 0;
    while i < |t|
      invariant i <= |t| && Walk(t, 0, |t|) == Walk(t, p, |t| - i)
    {
      if p >= |t| {
        return Outside;
      }
      if t[p] == SYSTEM_INFORMATION {
        return Found(p);
      }
      if p + 1 >= |t| {
        return Outside;
      }
      var q := FindPair(t, p + t[p + 1]);
      if q.None? {
        return Outside;
      }
      p := q.value + 2;
      i := i + 1;
    }
    return NotFound;
  }

  lemma FirstOf(buffer: array<char>, text: string)
    requires HoldsText(buffer, text) && text != ""
    ensures buffer[0] == text[0]
  {
    assert buffer[..|text|][0] == buffer[0];
  }

  // `size` and `status` are what the two calls to the firmware return, and `buffer` is the buffer
  // after the second one: whatever that call has left in it, its first `size` octets are taken for
  // the table. `outside` tells that the function would read past them.
  method GetDMIUUID(size: nat, status: nat, buffer: seq<byte>) returns (outside: bool, uuid: array?<char>)
    requires |buffer| == size + 1
    ensures outside <==> size != 0 && status != 0 && ReadsOutside(buffer[..size])
    ensures uuid != null <==> size != 0 && status != 0 && !outside && SystemUuid(buffer[..size]).Some?
    ensures uuid != null ==> fresh(uuid) && HoldsText(uuid, SystemUuid(buffer[..size]).value)
    ensures uuid != null ==> size > 8 && uuid.Length > 0 && (uuid[0] == '-' <==> !Since2Dot6(buffer[1], buffer[2]))
  {
    if size == 0 || status == 0 {
      return false, null;
    }
    var raw := buffer[..size];
    if |raw| < RAW_HEADER {
      return true, null;
    }
    if LengthOf(raw) != size - RAW_HEADER {
      return false, null;
    }
    var t := raw[RAW_HEADER..];
    var w := FindSystem(t);
    if !Inside(t, w) {
      return true, null;
    }
    if !w.Found? {
      return false, null;
    }
    outside := false;
    uuid := DmiSystemUuid(t[w.at + 8..w.at + 24], Version(raw[1], raw[2]));
    if uuid != null {
      LeadingDash(raw);
      FirstOf(uuid, SystemUuid(raw).value);
    }
  }

  // ---------------------------------------------------------------- well-formed tables

  function Raw(calling: byte, major: byte, minor: byte, revision: byte, ss: seq<Structure>): (raw: seq<byte>)
    requires |Table(ss)| < U32
    ensures |raw| == RAW_HEADER + |Table(ss)|
  {
    [calling, major, minor, revision] + LittleEndian32(|Table(ss)|) + Table(ss)
  }

  lemma PartsOfRaw(calling: byte, major: byte, minor: byte, revision: byte, ss: seq<Structure>)
    requires |Table(ss)| < U32
    ensures var raw := Raw(calling, major, minor, revision, ss);
            && LengthOf(raw) == |raw| - RAW_HEADER && raw[RAW_HEADER..] == Table(ss)
            && raw[1] == major && raw[2] == minor
  {
    var n := |Table(ss)|;
    assert n / 0x100 / 0x100 == n / 0x1_0000 && n / 0x1_0000 / 0x100 == n / 0x100_0000;
  }

  lemma SliceOfSlice(t: seq<byte>, p: nat, n: nat, i: nat, j: nat)
    requires p + n <= |t| && i <= j <= n
    ensures t[p..p + n][i..j] == t[p + i..p + j]
  {
    var slice := t[p..p + n];
    assert forall k :: i <= k < j ==> slice[k] == t[p + k];
    assert |slice[i..j]| == |t[p + i..p + j]|;
    assert forall k :: 0 <= k < j - i ==> slice[i..j][k] == slice[i + k] && t[p + i..p + j][k] == t[p + i + k];
  }

  // Octets 8 to 23 of the formatted area are the UUID.
  lemma UuidOctets(ss: seq<Structure>, k: nat)
    requires k < |ss| && |ss[k].formatted| >= 24
    ensures var p, t := |Table(ss[..k])|, Table(ss);
            p + 24 <= |t| && t[p + 8..p + 24] == ss[k].formatted[8..24]
  {
    StructureAt(ss, k);
    SliceOfSlice(Table(ss), |Table(ss[..k])|, |ss[k].formatted|, 8, 24);
  }

  // Every well-formed table with a system information structure: the walk ends at the first one,
  // and the 16 octets at its offset 8 are taken for the UUID. They are inside the table exactly if
  // it goes on for long enough, and they are the structure's own if that has 24 octets.
  lemma UuidOfFirstSystem(calling: byte, major: byte, minor: byte, revision: byte, ss: seq<Structure>, k: nat)
    requires AllWellFormed(ss) && |Table(ss)| < U32 && k == FirstSystem(ss) < |ss|
    ensures var raw, t, p := Raw(calling, major, minor, revision, ss), Table(ss), |Table(ss[..k])|;
            && (StaysInside(raw[RAW_HEADER..]) <==> p + 24 <= |t|)
            && (p + 24 <= |t| ==> Shown(SystemUuid(raw), t[p + 8..p + 24], major, minor))
            && (|ss[k].formatted| >= 24 ==> p + 24 <= |t| && t[p + 8..p + 24] == ss[k].formatted[8..24])
  {
    PartsOfRaw(calling, major, minor, revision, ss);
    WalkIsExact(ss);
    UuidOfWalk(Raw(calling, major, minor, revision, ss), Table(ss), |Table(ss[..k])|, major, minor);
    if |ss[k].formatted| >= 24 {
      UuidOctets(ss, k);
    }
  }

  lemma UuidOfWalk(raw: seq<byte>, t: seq<byte>, p: nat, major: byte, minor: byte)
    requires |raw| >= RAW_HEADER && raw[RAW_HEADER..] == t && LengthOf(raw) == |t|
    requires raw[1] == major && raw[2] == minor
    requires Walk(t, 0, |t|) == Found(p)
    ensures StaysInside(t) <==> p + 24 <= |t|
    ensures p + 24 <= |t| ==> Shown(SystemUuid(raw), t[p + 8..p + 24], major, minor)
  {
    assert Inside(t, Found(p)) <==> p + 24 <= |t|;
    if p + 24 <= |t| {
      TextByVersion(t[p + 8..p + 24], major, minor);
      assert UuidAfter(t, Found(p)) == Some(t[p + 8..p + 24]);
    }
  }

  // A table with structures but without system information is not read inside its bounds.
  lemma NoSystemLeavesTable(ss: seq<Structure>)
    requires AllWellFormed(ss) && ss != [] && FirstSystem(ss) == |ss|
    ensures !StaysInside(Table(ss))
  {
    WalkIsExact(ss);
  }
}
