// ApplyParameterStringsToMessage: several passes over a message and a bounded copy, measured
// against a recursive substitution in one pass.
module Substitution {
  import opened Bytes
  import opened Decimal

  // wcschr for '%'; the length of the message stands for NULL.
  function NextPercent(msg: string, p: nat): (t: nat)
    requires p <= |msg|
    ensures p <= t <= |msg|
    ensures t < |msg| ==> msg[t] == '%'
    decreases |msg| - p
  {
    if p == |msg| || msg[p] == '%' then p else NextPercent(msg, p + 1)
  }

  function DigitsEnd(msg: string, p: nat): (e: nat)
    requires p <= |msg|
    ensures p <= e <= |msg|
    decreases |msg| - p
  {
    if p == |msg| || !IsDigit(msg[p]) then p else DigitsEnd(msg, p + 1)
  }

  // No '%' lies between p and q.
  predicate Plain(msg: string, p: nat, q: nat)
    requires p <= q <= |msg|
  {
    forall i :: p <= i < q ==> msg[i] != '%'
  }

  lemma {:induction false} PlainBefore(msg: string, p: nat)
    requires p <= |msg|
    ensures Plain(msg, p, NextPercent(msg, p))
    decreases |msg| - p
  {
    if p < |msg| && msg[p] != '%' {
      PlainBefore(msg, p + 1);
    }
  }

  // DigitsEnd is the end of the longest run of digits.
  lemma {:induction false} DigitsRun(msg: string, p: nat)
    requires p <= |msg|
    ensures var e := DigitsEnd(msg, p);
            && (forall i :: p <= i < e ==> IsDigit(msg[i]))
            && (e < |msg| ==> !IsDigit(msg[e]))
    decreases |msg| - p
  {
    if p < |msg| && IsDigit(msg[p]) {
      DigitsRun(msg, p + 1);
    }
  }

  lemma PlainDigits(msg: string, p: nat)
    requires p <= |msg|
    ensures Plain(msg, p, DigitsEnd(msg, p))
  {
    DigitsRun(msg, p);
  }

  // A '%' at p starts a parameter if a digit follows it.
  predicate StartsParameter(msg: string, p: nat) {
    p + 1 < |msg| && msg[p] == '%' && IsDigit(msg[p + 1])
  }

  predicate AllParameters(msg: string) {
    forall p {:trigger StartsParameter(msg, p)} :: 0 <= p < |msg| && msg[p] == '%' ==> StartsParameter(msg, p)
  }

  // ---------------------------------------------------------------- the reference

  function Join(a: Option<string>, b: Option<string>): Option<string> {
    if a.None? || b.None? then None else Some(a.value + b.value)
  }

  // The message from p on with every parameter replaced, in one pass; None if a parameter string
  // cannot be found.
  function Subst(msg: string, p: nat, lookup: nat -> Option<string>): Option<string>
    requires p <= |msg|
    decreases |msg| - p
  {
    if p == |msg| then Some("")
    else if StartsParameter(msg, p) then
      var e := DigitsEnd(msg, p + 1);
      Join(lookup(Wtoi(msg[p + 1..e])), Subst(msg, e, lookup))
    else Join(Some([msg[p]]), Subst(msg, p + 1, lookup))
  }

  lemma {:induction false} SubstSkips(msg: string, p: nat, q: nat, lookup: nat -> Option<string>)
    requires p <= q <= |msg| && Plain(msg, p, q)
    ensures Subst(msg, p, lookup) == Join(Some(msg[p..q]), Subst(msg, q, lookup))
    decreases q - p
  {
    if p < q {
      SubstSkips(msg, p + 1, q, lookup);
      var rest := Subst(msg, q, lookup);
      if rest.Some? {
        assert msg[p..q] == [msg[p]] + msg[p + 1..q];
        assert [msg[p]] + (msg[p + 1..q] + rest.value) == msg[p..q] + rest.value;
      }
    } else if Subst(msg, q, lookup).Some? {
      assert msg[p..q] + Subst(msg, q, lookup).value == Subst(msg, q, lookup).value;
    }
  }

  // ---------------------------------------------------------------- what the substitution means

  // A text and a parameter behind it: a '%' and a number, printed behind some zeros.
  datatype Piece = Piece(text: string, zeros: nat, number: nat)

  function Run(piece: Piece): string { LeadingZeros(piece.zeros) + Digits(piece.number) }

  function Template(pieces: seq<Piece>, tail: string): string {
    if pieces == [] then tail
    else pieces[0].text + ("%" + (Run(pieces[0]) + Template(pieces[1..], tail)))
  }

  // Its number, or the greatest int if that is less.
  function NumberRead(piece: Piece): nat { if piece.number <= INT_MAX then piece.number else INT_MAX }

  predicate StartsWithDigit(s: string) { s != "" && IsDigit(s[0]) }

  // The texts hold no '%', and no digit follows a number.
  predicate Readable(pieces: seq<Piece>, tail: string) {
    if pieces == [] then '%' !in tail
    else '%' !in pieces[0].text && Readable(pieces[1..], tail) && !StartsWithDigit(Template(pieces[1..], tail))
  }

  // Every parameter replaced with the string that has its number.
  function Filled(pieces: seq<Piece>, tail: string, lookup: nat -> Option<string>): Option<string> {
    if pieces == [] then Some(tail)
    else Join(Some(pieces[0].text), Join(lookup(NumberRead(pieces[0])), Filled(pieces[1..], tail, lookup)))
  }

  lemma {:induction false} DigitsEndIs(msg: string, p: nat, e: nat)
    requires p <= e <= |msg| && (forall i :: p <= i < e ==> IsDigit(msg[i])) && (e < |msg| ==> !IsDigit(msg[e]))
    ensures DigitsEnd(msg, p) == e
    decreases e - p
  {
    if p < e {
      DigitsEndIs(msg, p + 1, e);
    }
  }

  lemma Layout(msg: string, p: nat, text: string, run: string, rest: string)
    requires p <= |msg| && msg[p..] == text + ("%" + (run + rest))
    ensures var t := p + |text|; var e := t + 1 + |run|;
            && e <= |msg| && msg[p..t] == text && msg[t] == '%' && msg[t + 1..e] == run && msg[e..] == rest
  {
    var t, view := p + |text|, msg[p..];
    var e := t + 1 + |run|;
    assert view[..|text|] == text && view[|text|] == '%';
    assert view[|text| + 1..] == run + rest;
    assert msg[t + 1..] == view[|text| + 1..];
    assert msg[t + 1..][..|run|] == run && msg[t + 1..][|run|..] == rest;
  }

  // A '%' and a run of digits with no digit behind it.
  lemma SubstRun(msg: string, t: nat, e: nat, piece: Piece, lookup: nat -> Option<string>)
    requires t < e <= |msg| && msg[t] == '%' && msg[t + 1..e] == Run(piece)
    requires !StartsWithDigit(msg[e..])
    ensures Subst(msg, t, lookup) == Join(lookup(NumberRead(piece)), Subst(msg, e, lookup))
  {
    var run := Run(piece);
    ValueOfDigits(piece.number);
    WtoiReads(piece.zeros, piece.number);
    assert forall i :: t + 1 <= i < e ==> msg[i] == run[i - (t + 1)];
    assert e < |msg| ==> msg[e] == msg[e..][0];
    DigitsEndIs(msg, t + 1, e);
  }

  // The one-pass substitution of a piece that the message has at p.
  lemma SubstPiece(msg: string, p: nat, piece: Piece, rest: string, lookup: nat -> Option<string>)
    requires p <= |msg| && msg[p..] == piece.text + ("%" + (Run(piece) + rest))
    requires '%' !in piece.text && !StartsWithDigit(rest)
    ensures var e := p + |piece.text| + 1 + |Run(piece)|;
            && e <= |msg| && msg[e..] == rest
            && Subst(msg, p, lookup) == Join(Some(piece.text), Join(lookup(NumberRead(piece)), Subst(msg, e, lookup)))
  {
    Layout(msg, p, piece.text, Run(piece), rest);
    var t := p + |piece.text|;
    SubstRun(msg, t, t + 1 + |Run(piece)|, piece, lookup);
    assert forall i :: p <= i < t ==> msg[i] == piece.text[i - p];
    SubstSkips(msg, p, t, lookup);
  }

  lemma SubstTail(msg: string, p: nat, lookup: nat -> Option<string>)
    requires p <= |msg| && '%' !in msg[p..]
    ensures Subst(msg, p, lookup) == Some(msg[p..])
  {
    assert forall i :: p <= i < |msg| ==> msg[i] == msg[p..][i - p];
    SubstSkips(msg, p, |msg|, lookup);
    assert msg[p..|msg|] + "" == msg[p..];
  }

  lemma Pieces(pieces: seq<Piece>, tail: string)
    requires pieces != [] && Readable(pieces, tail)
    ensures var rest := Template(pieces[1..], tail);
            && Template(pieces, tail) == pieces[0].text + ("%" + (Run(pieces[0]) + rest))
            && '%' !in pieces[0].text && !StartsWithDigit(rest) && Readable(pieces[1..], tail)
  {
  }

  // The one-pass substitution of a message is what filling its pieces gives.
  lemma {:induction false} SubstIsFilled(msg: string, p: nat, pieces: seq<Piece>, tail: string,
                                         lookup: nat -> Option<string>)
    requires p <= |msg| && msg[p..] == Template(pieces, tail) && Readable(pieces, tail)
    ensures Subst(msg, p, lookup) == Filled(pieces, tail, lookup)
    decreases |pieces|
  {
    if pieces == [] {
      SubstTail(msg, p, lookup);
    } else {
      var rest := Template(pieces[1..], tail);
      Pieces(pieces, tail);
      SubstPiece(msg, p, pieces[0], rest, lookup);
      SubstIsFilled(msg, p + |pieces[0].text| + 1 + |Run(pieces[0])|, pieces[1..], tail, lookup);
    }
  }

  lemma Starts(msg: string, t: nat)
    requires AllParameters(msg) && t < |msg| && msg[t] == '%'
    ensures StartsParameter(msg, t)
  {
  }

  lemma Cut(msg: string, p: nat, t: nat, e: nat)
    requires p <= t < e <= |msg| && msg[t] == '%'
    ensures msg[p..] == msg[p..t] + ("%" + (msg[t + 1..e] + msg[e..]))
  {
    assert msg[t..] == "%" + (msg[t + 1..e] + msg[e..]);
    assert msg[p..] == msg[p..t] + msg[t..];
  }

  lemma DigitsBehind(msg: string, t: nat)
    requires StartsParameter(msg, t)
    ensures var e := DigitsEnd(msg, t + 1);
            e > t + 1 && AllDigits(msg[t + 1..e]) && !StartsWithDigit(msg[e..])
  {
    DigitsRun(msg, t + 1);
  }

  lemma PieceAt(msg: string, p: nat) returns (piece: Piece, e: nat)
    requires AllParameters(msg) && p <= |msg| && NextPercent(msg, p) < |msg|
    ensures p < e <= |msg| && '%' !in piece.text && !StartsWithDigit(msg[e..])
    ensures msg[p..] == piece.text + ("%" + (Run(piece) + msg[e..]))
  {
    var t := NextPercent(msg, p);
    Starts(msg, t);
    PlainBefore(msg, p);
    e := DigitsEnd(msg, t + 1);
    DigitsBehind(msg, t);
    var k, n := RunIsPrinted(msg[t + 1..e]);
    piece := Piece(msg[p..t], k, n);
    Cut(msg, p, t, e);
  }

  // Every message in which a digit follows each '%' has such pieces.
  lemma {:induction false} PiecesFrom(msg: string, p: nat) returns (pieces: seq<Piece>, tail: string)
    requires AllParameters(msg) && p <= |msg|
    ensures msg[p..] == Template(pieces, tail) && Readable(pieces, tail)
    decreases |msg| - p
  {
    if NextPercent(msg, p) == |msg| {
      PlainBefore(msg, p);
      pieces, tail := [], msg[p..];
    } else {
      var piece, e := PieceAt(msg, p);
      pieces, tail := PiecesFrom(msg, e);
      assert ([piece] + pieces)[1..] == pieces;
      pieces := [piece] + pieces;
    }
  }

  // So on every message that the function handles, the one-pass substitution fills its pieces.
  lemma SubstFillsPieces(msg: string) returns (pieces: seq<Piece>, tail: string)
    requires AllParameters(msg)
    ensures msg == Template(pieces, tail) && Readable(pieces, tail)
    ensures forall lookup: nat -> Option<string> :: Subst(msg, 0, lookup) == Filled(pieces, tail, lookup)
  {
    pieces, tail := PiecesFrom(msg, 0);
    assert msg[0..] == msg;
    forall lookup: nat -> Option<string> ensures Subst(msg, 0, lookup) == Filled(pieces, tail, lookup) {
      SubstIsFilled(msg, 0, pieces, tail, lookup);
    }
  }

  // The example in the comments of the source.
  function Example(): seq<Piece> { [Piece("8 ", 0, 4096), Piece(" = 2 ", 0, 4097)] }

  lemma ExampleRuns()
    ensures Run(Piece("8 ", 0, 4096)) == "4096" && Run(Piece(" = 2 ", 0, 4097)) == "4097"
  {
    DigitsOf4096();
  }

  lemma SecondPiece()
    ensures Template(Example()[1..], ".") == " = 2 %4097." && Readable(Example()[1..], ".")
  {
    ExampleRuns();
    assert Example()[1..] == [Example()[1]] && [Example()[1]][1..] == [];
    assert "4097" + "." == "4097.";
    assert "%" + "4097." == "%4097.";
    assert " = 2 " + "%4097." == " = 2 %4097.";
  }

  lemma ExampleText()
    ensures "8 " + ("%" + ("4096" + " = 2 %4097.")) == "8 %4096 = 2 %4097."
  {
    assert "4096" + " = 2 %4097." == "4096 = 2 %4097.";
    assert "%" + "4096 = 2 %4097." == "%4096 = 2 %4097.";
  }

  lemma BothPieces()
    ensures Template(Example(), ".") == "8 %4096 = 2 %4097." && Readable(Example(), ".")
  {
    ExampleRuns();
    SecondPiece();
    ExampleText();
  }

  lemma FillsSecond(lookup: nat -> Option<string>)
    requires lookup(4097) == Some("gallons")
    ensures Filled(Example()[1..], ".", lookup) == Some(" = 2 gallons.")
  {
    var second := Example()[1..];
    assert second == [Piece(" = 2 ", 0, 4097)] && second[1..] == [];
    assert "gallons" + "." == "gallons.";
    assert " = 2 " + "gallons." == " = 2 gallons.";
  }

  lemma FilledText()
    ensures "8 " + ("quarts" + " = 2 gallons.") == "8 quarts = 2 gallons."
  {
    assert "quarts" + " = 2 gallons." == "quarts = 2 gallons.";
  }

  lemma FillsExample(lookup: nat -> Option<string>)
    requires lookup(4096) == Some("quarts") && lookup(4097) == Some("gallons")
    ensures Filled(Example(), ".", lookup) == Some("8 quarts = 2 gallons.")
  {
    FillsSecond(lookup);
    FilledText();
  }

  lemma QuartsInGallons(lookup: nat -> Option<string>)
    requires lookup(4096) == Some("quarts") && lookup(4097) == Some("gallons")
    ensures Subst("8 %4096 = 2 %4097.", 0, lookup) == Some("8 quarts = 2 gallons.")
  {
    BothPieces();
    FillsExample(lookup);
    var msg := Template(Example(), ".");
    assert msg[0..] == msg;
    SubstIsFilled(msg, 0, Example(), ".", lookup);
  }

  // ---------------------------------------------------------------- what the passes compute

  datatype Param = Param(start: nat, end: nat, id: nat)

  function ParamAt(msg: string, t: nat): Param
    requires StartsParameter(msg, t)
  {
    var e := DigitsEnd(msg, t + 1);
    Param(t, e, Wtoi(msg[t + 1..e]))
  }

  function CountPercents(msg: string, p: nat): nat
    requires p <= |msg|
    decreases |msg| - p
  {
    var t := NextPercent(msg, p);
    if t == |msg| then 0 else 1 + CountPercents(msg, t + 1)
  }

  // Parameters lie in order between p and n, apart from each other, with at least one digit.
  predicate InOrder(ps: seq<Param>, p: nat, n: nat) {
    && p <= n
    && (ps != [] ==> p <= ps[0].start < ps[0].end <= n && InOrder(ps[1..], ps[0].end, n))
  }

  function Params(msg: string, p: nat): (ps: seq<Param>)
    requires p <= |msg|
    ensures InOrder(ps, p, |msg|)
    decreases |msg| - p
  {
    var t := NextPercent(msg, p);
    if !StartsParameter(msg, t) then [] else [ParamAt(msg, t)] + Params(msg, DigitsEnd(msg, t + 1))
  }

  // Between p and q there is no '%', so the next one is the same.
  lemma {:induction false} SkipPlain(msg: string, p: nat, q: nat)
    requires p <= q <= |msg| && Plain(msg, p, q)
    ensures NextPercent(msg, p) == NextPercent(msg, q)
    decreases q - p
  {
    if p < q {
      SkipPlain(msg, p + 1, q);
    }
  }

  lemma PercentsBeyond(msg: string, t: nat)
    requires StartsParameter(msg, t)
    ensures CountPercents(msg, t) == 1 + CountPercents(msg, DigitsEnd(msg, t + 1))
  {
    PlainDigits(msg, t + 1);
    SkipPlain(msg, t + 1, DigitsEnd(msg, t + 1));
  }

  lemma PercentsFrom(msg: string, p: nat)
    requires p <= |msg|
    ensures CountPercents(msg, p) == CountPercents(msg, NextPercent(msg, p))
  {
    PlainBefore(msg, p);
    SkipPlain(msg, p, NextPercent(msg, p));
  }

  // The next parameter, and the ones behind it.
  lemma NextParam(msg: string, p: nat)
    requires p <= |msg|
    ensures var t := NextPercent(msg, p);
            if StartsParameter(msg, t) then Params(msg, p) == [ParamAt(msg, t)] + Params(msg, DigitsEnd(msg, t + 1))
            else Params(msg, p) == []
  {
  }

  lemma NoPercents(msg: string, p: nat)
    requires p <= |msg| && NextPercent(msg, p) == |msg|
    ensures Params(msg, p) == [] && CountPercents(msg, p) == 0
  {
  }

  // The arrays are as long as the number of parameters found later.
  lemma {:induction false} CountIsExact(msg: string, p: nat)
    requires AllParameters(msg) && p <= |msg|
    ensures |Params(msg, p)| == CountPercents(msg, p)
    decreases |msg| - p
  {
    var t := NextPercent(msg, p);
    if t < |msg| {
      Starts(msg, t);
      NextParam(msg, p);
      PercentsFrom(msg, p);
      PercentsBeyond(msg, t);
      CountIsExact(msg, DigitsEnd(msg, t + 1));
    } else {
      NoPercents(msg, p);
    }
  }

  // The message from p on, put together from the segments between the parameters and their texts.
  function Assemble(msg: string, p: nat, ps: seq<Param>, texts: seq<string>): string
    requires InOrder(ps, p, |msg|) && |ps| == |texts|
    decreases |ps|
  {
    if ps == [] then msg[p..]
    else msg[p..ps[0].start] + texts[0] + Assemble(msg, ps[0].end, ps[1..], texts[1..])
  }

  ghost predicate Found(ps: seq<Param>, texts: seq<string>, lookup: nat -> Option<string>) {
    |texts| == |ps| && forall i :: 0 <= i < |ps| ==> lookup(ps[i].id) == Some(texts[i])
  }

  lemma SubstStep(msg: string, p: nat, t: nat, text: string, rest: string, lookup: nat -> Option<string>)
    requires p <= |msg| && t == NextPercent(msg, p) && StartsParameter(msg, t)
    requires lookup(ParamAt(msg, t).id) == Some(text)
    requires Subst(msg, DigitsEnd(msg, t + 1), lookup) == Some(rest)
    ensures Subst(msg, p, lookup) == Some(msg[p..t] + text + rest)
  {
    PlainBefore(msg, p);
    SubstSkips(msg, p, t, lookup);
    SubstAt(msg, t, text, rest, lookup);
    Associates(msg[p..t], text, rest);
  }

  lemma SubstAt(msg: string, t: nat, text: string, rest: string, lookup: nat -> Option<string>)
    requires StartsParameter(msg, t) && lookup(ParamAt(msg, t).id) == Some(text)
    requires Subst(msg, DigitsEnd(msg, t + 1), lookup) == Some(rest)
    ensures Subst(msg, t, lookup) == Some(text + rest)
  {
  }

  lemma SubstLast(msg: string, p: nat, lookup: nat -> Option<string>)
    requires p <= |msg| && NextPercent(msg, p) == |msg|
    ensures Subst(msg, p, lookup) == Some(msg[p..])
  {
    PlainBefore(msg, p);
    SubstSkips(msg, p, |msg|, lookup);
    assert msg[p..|msg|] + "" == msg[p..];
  }

  lemma FoundRest(ps: seq<Param>, texts: seq<string>, lookup: nat -> Option<string>)
    requires Found(ps, texts, lookup) && ps != []
    ensures lookup(ps[0].id) == Some(texts[0]) && Found(ps[1..], texts[1..], lookup)
  {
  }

  // The parameters from p on, taken apart.
  lemma FirstParam(msg: string, p: nat, t: nat, ps: seq<Param>)
    requires p <= |msg| && t == NextPercent(msg, p) && StartsParameter(msg, t) && ps == Params(msg, p)
    ensures ps != [] && ps[0] == ParamAt(msg, t) && ps[1..] == Params(msg, DigitsEnd(msg, t + 1))
  {
    NextParam(msg, p);
  }

  lemma AssembleFirst(msg: string, p: nat, ps: seq<Param>, texts: seq<string>, rest: string)
    requires InOrder(ps, p, |msg|) && |ps| == |texts| && ps != []
    requires rest == Assemble(msg, ps[0].end, ps[1..], texts[1..])
    ensures Assemble(msg, p, ps, texts) == msg[p..ps[0].start] + texts[0] + rest
  {
  }

  lemma AssembleNone(msg: string, p: nat)
    requires p <= |msg|
    ensures Assemble(msg, p, [], []) == msg[p..]
  {
  }

  // Putting the pieces together gives the one-pass substitution.
  lemma {:induction false} SubstIsAssembled(msg: string, p: nat, ps: seq<Param>, texts: seq<string>,
                                             lookup: nat -> Option<string>)
    requires AllParameters(msg) && p <= |msg| && ps == Params(msg, p) && Found(ps, texts, lookup)
    ensures Subst(msg, p, lookup) == Some(Assemble(msg, p, ps, texts))
    decreases |msg| - p
  {
    var t := NextPercent(msg, p);
    if t < |msg| {
      Starts(msg, t);
      FirstParam(msg, p, t, ps);
      FoundRest(ps, texts, lookup);
      SubstIsAssembled(msg, ps[0].end, ps[1..], texts[1..], lookup);
      var rest := Assemble(msg, ps[0].end, ps[1..], texts[1..]);
      AssembleFirst(msg, p, ps, texts, rest);
      SubstStep(msg, p, t, texts[0], rest, lookup);
    } else {
      NoPercents(msg, p);
      SubstLast(msg, p, lookup);
      AssembleNone(msg, p);
    }
  }

  lemma SubstAtMissing(msg: string, t: nat, lookup: nat -> Option<string>)
    requires StartsParameter(msg, t)
    requires lookup(ParamAt(msg, t).id).None? || Subst(msg, DigitsEnd(msg, t + 1), lookup).None?
    ensures Subst(msg, t, lookup).None?
  {
  }

  lemma SubstFromMissing(msg: string, p: nat, t: nat, lookup: nat -> Option<string>)
    requires p <= |msg| && t == NextPercent(msg, p) && StartsParameter(msg, t)
    requires lookup(ParamAt(msg, t).id).None? || Subst(msg, DigitsEnd(msg, t + 1), lookup).None?
    ensures Subst(msg, p, lookup).None?
  {
    SubstAtMissing(msg, t, lookup);
    PlainBefore(msg, p);
    SubstSkips(msg, p, t, lookup);
  }

  // The first parameter, if there is one.
  lemma SomeParam(msg: string, p: nat, ps: seq<Param>) returns (t: nat)
    requires p <= |msg| && ps == Params(msg, p) && ps != []
    ensures t == NextPercent(msg, p) && StartsParameter(msg, t)
    ensures ps[0] == ParamAt(msg, t) && ps[1..] == Params(msg, DigitsEnd(msg, t + 1))
  {
    t := NextPercent(msg, p);
    NextParam(msg, p);
    FirstParam(msg, p, t, ps);
  }

  lemma {:induction false} SubstNotFound(msg: string, p: nat, ps: seq<Param>, i: nat, lookup: nat -> Option<string>)
    requires AllParameters(msg) && p <= |msg| && ps == Params(msg, p)
    requires i < |ps| && lookup(ps[i].id).None?
    ensures Subst(msg, p, lookup).None?
    decreases |ps|
  {
    var t := SomeParam(msg, p, ps);
    if i > 0 {
      SubstNotFound(msg, DigitsEnd(msg, t + 1), ps[1..], i - 1, lookup);
    }
    SubstFromMissing(msg, p, t, lookup);
  }

  function Total(texts: seq<string>): nat {
    if texts == [] then 0 else Total(texts[..|texts| - 1]) + |texts[|texts| - 1]|
  }

  lemma {:induction false} TotalHead(texts: seq<string>)
    requires texts != []
    ensures Total(texts) == |texts[0]| + Total(texts[1..])
  {
    if |texts| > 1 {
      var front := texts[..|texts| - 1];
      TotalHead(front);
      assert front[1..] == texts[1..][..|texts| - 2];
    } else {
      assert texts[1..] == [] && texts[..0] == [];
    }
  }

  // The characters of the message that belong to parameters.
  function Marked(ps: seq<Param>, p: nat, n: nat): nat
    requires InOrder(ps, p, n)
    decreases |ps|
  {
    if ps == [] then 0 else ps[0].end - ps[0].start + Marked(ps[1..], ps[0].end, n)
  }

  // The buffer is computed for the whole message and all texts; what replaces the parameters takes
  // exactly their place less.
  lemma {:induction false} AssembledLength(msg: string, p: nat, ps: seq<Param>, texts: seq<string>)
    requires InOrder(ps, p, |msg|) && |ps| == |texts|
    ensures |Assemble(msg, p, ps, texts)| + Marked(ps, p, |msg|) == |msg| - p + Total(texts)
    decreases |ps|
  {
    if ps != [] {
      AssembledLength(msg, ps[0].end, ps[1..], texts[1..]);
      TotalHead(texts);
    }
  }

  lemma ParamsFrom(msg: string, p: nat)
    requires p <= |msg|
    ensures Params(msg, p) == Params(msg, NextPercent(msg, p))
    ensures NextPercent(msg, NextPercent(msg, p)) == NextPercent(msg, p)
  {
    PlainBefore(msg, p);
    SkipPlain(msg, p, NextPercent(msg, p));
  }

  // ---------------------------------------------------------------- the passes, in place

  // First pass: counts the percent signs.
  method CountParameters(msg: string) returns (count: nat)
    ensures count == CountPercents(msg, 0)
  {
    count := 0;
    var t := NextPercent(msg, 0);
    PercentsFrom(msg, 0);
    while t < |msg|
      invariant t <= |msg| && NextPercent(msg, t) == t
      invariant count + CountPercents(msg, t) == CountPercents(msg, 0)
      decreases |msg| - t
    {
      count := count + 1;
      ParamsFrom(msg, t + 1);
      PercentsFrom(msg, t + 1);
      t := NextPercent(msg, t + 1);
    }
  }

  // The inner loop of the second pass: from q to the end of the digits.
  method SkipDigits(msg: string, q: nat) returns (e: nat)
    requires q <= |msg|
    ensures e == DigitsEnd(msg, q)
  {
    e := q;
    while e < |msg| && IsDigit(msg[e])
      invariant q <= e <= |msg| && DigitsEnd(msg, e) == DigitsEnd(msg, q)
    {
      e := e + 1;
    }
  }

  // The parameters found so far are in the first i places, the others start at t.
  ghost predicate Recorded(all: seq<Param>, i: nat, starts: seq<nat>, ends: seq<nat>, ids: seq<nat>) {
    && |starts| == |ends| == |ids| == |all|
    && i <= |all|
    && forall k :: 0 <= k < i ==> Param(starts[k], ends[k], ids[k]) == all[k]
  }

  lemma NextOf(all: seq<Param>, i: nat, msg: string, t: nat)
    requires StartsParameter(msg, t) && NextPercent(msg, t) == t
    requires i <= |all| && all[i..] == Params(msg, t)
    ensures i < |all| && all[i] == ParamAt(msg, t) && all[i + 1..] == Params(msg, ParamAt(msg, t).end)
  {
    NextParam(msg, t);
    assert all[i..][0] == all[i];
    assert all[i + 1..] == all[i..][1..];
  }

  lemma RecordNext(all: seq<Param>, i: nat, starts: seq<nat>, ends: seq<nat>, ids: seq<nat>, p: Param)
    requires Recorded(all, i, starts, ends, ids) && i < |all| && p == all[i]
    ensures Recorded(all, i + 1, starts[i := p.start], ends[i := p.end], ids[i := p.id])
  {
  }

  // Where a round of the second pass leads from a '%'. One without a digit behind it does not move
  // the cursor, so the search finds it again and again.
  function NextCursor(msg: string, t: nat): (t': nat)
    requires t <= |msg| && (t < |msg| ==> msg[t] == '%')
    ensures t' <= |msg| && (t' < |msg| ==> msg[t'] == '%')
  {
    if StartsParameter(msg, t) then NextPercent(msg, DigitsEnd(msg, t + 1)) else t
  }

  // Where the second pass stands after n rounds.
  function Cursor(msg: string, n: nat): (t: nat)
    ensures t <= |msg| && (t < |msg| ==> msg[t] == '%')
  {
    if n == 0 then NextPercent(msg, 0) else NextCursor(msg, Cursor(msg, n - 1))
  }

  // A round of the second pass, and the search for the next '%', on any message.
  method FindRound(msg: string, t: nat, i: nat, starts: array<nat>, ends: array<nat>, ids: array<nat>)
    returns (t': nat, i': nat)
    requires t < |msg| && msg[t] == '%'
    requires starts.Length == ends.Length == ids.Length && (StartsParameter(msg, t) ==> i < starts.Length)
    requires starts != ends && starts != ids && ends != ids
    modifies starts, ends, ids
    ensures t' == NextCursor(msg, t) && i' == if StartsParameter(msg, t) then i + 1 else i
    ensures starts[..] == if StartsParameter(msg, t) then old(starts[..])[i := t] else old(starts[..])
    ensures ends[..] == if StartsParameter(msg, t) then old(ends[..])[i := ParamAt(msg, t).end] else old(ends[..])
    ensures ids[..] == if StartsParameter(msg, t) then old(ids[..])[i := ParamAt(msg, t).id] else old(ids[..])
  {
    t', i' := t, i;
    if t + 1 < |msg| && IsDigit(msg[t + 1]) {
      var q := SkipDigits(msg, t + 2);
      starts[i], ends[i], ids[i] := t, q, Wtoi(msg[t + 1..q]);
      t', i' := q, i + 1;
    }
    t' := NextPercent(msg, t');
  }

  // Second pass: where each parameter starts and ends, and its number. After n rounds it stands at
  // Cursor(msg, n).
  method FindParameters(msg: string, starts: array<nat>, ends: array<nat>, ids: array<nat>)
    requires AllParameters(msg)
    requires starts.Length == ends.Length == ids.Length == |Params(msg, 0)|
    requires starts != ends && starts != ids && ends != ids
    modifies starts, ends, ids
    ensures Recorded(Params(msg, 0), starts.Length, starts[..], ends[..], ids[..])
  {
    ghost var all, n := Params(msg, 0), 0;
    var i: nat, t: nat := 0, NextPercent(msg, 0);
    ParamsFrom(msg, 0);
    while t < |msg|
      invariant t == Cursor(msg, n) && NextPercent(msg, t) == t
      invariant i <= |all| && all[i..] == Params(msg, t)
      invariant Recorded(all, i, starts[..], ends[..], ids[..])
      decreases |msg| - t
    {
      Starts(msg, t);
      NextOf(all, i, msg, t);
      RecordNext(all, i, starts[..], ends[..], ids[..], ParamAt(msg, t));
      ParamsFrom(msg, ParamAt(msg, t).end);
      t, i := FindRound(msg, t, i, starts, ends, ids);
      n := n + 1;
    }
    NoPercents(msg, t);
  }

  // Third pass: the parameter strings and their total length; `missing` is the first one that
  // cannot be found, if any.
  method FetchTexts(ids: array<nat>, lookup: nat -> Option<string>)
    returns (texts: seq<string>, total: nat, missing: Option<nat>)
    ensures missing.Some? ==> missing.value < ids.Length && lookup(ids[missing.value]).None?
    ensures missing.None? ==> |texts| == ids.Length && total == Total(texts)
                              && forall k :: 0 <= k < ids.Length ==> lookup(ids[k]) == Some(texts[k])
  {
    texts, total, missing := [], 0, None;
    var i := 0;
    while i < ids.Length
      invariant 0 <= i <= ids.Length && |texts| == i && total == Total(texts)
      invariant forall k :: 0 <= k < i ==> lookup(ids[k]) == Some(texts[k])
    {
      var r := lookup(ids[i]);
      if r.None? {
        missing := Some(i);
        return;
      }
      assert (texts + [r.value])[..i] == texts;
      texts := texts + [r.value];
      total := total + |r.value|;
      i := i + 1;
    }
  }

  // wcsncpy_s and wcscpy_s: they accept a text only if it and a terminator fit in the capacity.
  method CopyString(buffer: array<char>, at: nat, capacity: nat, text: string)
    requires at + capacity == buffer.Length && |text| < capacity
    modifies buffer
    ensures buffer[..at + |text|] == old(buffer[..at]) + text && buffer[at + |text|] == '\0'
  {
    var i := 0;
    while i < |text|
      invariant 0 <= i <= |text| && buffer[..at + i] == old(buffer[..at]) + text[..i]
    {
      buffer[at + i] := text[i];
      i := i + 1;
    }
    assert text[..|text|] == text;
    buffer[at + |text|] := '\0';
    assert buffer[..at + |text|] == old(buffer[..at]) + text;
  }

  // What is in the buffer, followed by the rest of the message with its texts, is the full text.
  ghost predicate Progress(full: string, written: string, msg: string, src: nat,
                           ps: seq<Param>, texts: seq<string>, i: nat) {
    && i <= |ps| == |texts|
    && InOrder(ps[i..], src, |msg|)
    && full == written + Assemble(msg, src, ps[i..], texts[i..])
  }

  // One round of the copy appends a segment of the message and a text.
  lemma Round(full: string, written: string, msg: string, src: nat, ps: seq<Param>, texts: seq<string>, i: nat)
    requires Progress(full, written, msg, src, ps, texts, i) && i < |ps|
    ensures src <= ps[i].start < ps[i].end <= |msg|
    ensures var next := written + msg[src..ps[i].start] + texts[i];
            |next| <= |full| && Progress(full, next, msg, ps[i].end, ps, texts, i + 1)
  {
    assert ps[i..][0] == ps[i] && ps[i..][1..] == ps[i + 1..];
    assert texts[i..][0] == texts[i] && texts[i..][1..] == texts[i + 1..];
    var rest := Assemble(msg, ps[i].end, ps[i + 1..], texts[i + 1..]);
    var segment := msg[src..ps[i].start];
    assert written + (segment + texts[i] + rest) == written + segment + texts[i] + rest;
  }

  // One round of the last pass: a segment of the message and a parameter string.
  method CopyRound(buffer: array<char>, dst: nat, capacity: nat, segment: string, text: string)
    returns (dst': nat, capacity': nat)
    requires dst + capacity == buffer.Length && |segment| + |text| < capacity
    modifies buffer
    ensures dst' == dst + |segment| + |text| && dst' + capacity' == buffer.Length
    ensures buffer[..dst'] == old(buffer[..dst]) + segment + text
  {
    CopyString(buffer, dst, capacity, segment);
    capacity', dst' := capacity - |segment|, dst + |segment|;
    CopyString(buffer, dst', capacity', text);
    capacity', dst' := capacity' - |text|, dst' + |text|;
  }

  // Last pass: the bounded copy. The capacity that is left is always larger than what is still to
  // be written, so no copy is refused and the terminator has its place.
  method BuildMessage(msg: string, starts: array<nat>, ends: array<nat>, texts: seq<string>,
                      ghost ps: seq<Param>, buffer: array<char>)
    requires |texts| == |ps| == starts.Length == ends.Length && InOrder(ps, 0, |msg|)
    requires forall k :: 0 <= k < |ps| ==> ps[k].start == starts[k] && ps[k].end == ends[k]
    requires buffer.Length == |msg| + Total(texts) + 1
    modifies buffer
    ensures HoldsText(buffer, Assemble(msg, 0, ps, texts))
  {
    ghost var full := Assemble(msg, 0, ps, texts);
    AssembledLength(msg, 0, ps, texts);
    var src: nat, dst: nat, capacity: nat, i: nat := 0, 0, buffer.Length, 0;
    assert ps[0..] == ps && texts[0..] == texts;
    while i < |texts|
      invariant i <= |texts| && src <= |msg| && dst + capacity == buffer.Length
      invariant Progress(full, buffer[..dst], msg, src, ps, texts, i)
    {
      ghost var next := buffer[..dst] + msg[src..starts[i]] + texts[i];
      Round(full, buffer[..dst], msg, src, ps, texts, i);
      dst, capacity := CopyRound(buffer, dst, capacity, msg[src..starts[i]], texts[i]);
      assert buffer[..dst] == next;
      src := ends[i];
      i := i + 1;
    }
    CopyString(buffer, dst, capacity, msg[src..]);
  }

  lemma NoneCounted(msg: string, lookup: nat -> Option<string>)
    ensures CountPercents(msg, 0) == 0 <==> '%' !in msg
    ensures '%' !in msg ==> Subst(msg, 0, lookup) == Some(msg)
  {
    PlainBefore(msg, 0);
    assert msg[0..] == msg;
    if '%' !in msg {
      SubstTail(msg, 0, lookup);
    }
  }

  const ERROR_SUCCESS := 0
  const ERROR_INVALID_PARAMETER := 87

  // What pFinalMessage points to afterwards.
  datatype Final = NoMessage | Original | Built(buffer: array<char>)

  // A message whose every '%' starts a parameter: without one, there is nothing to build; if a
  // parameter string is missing, the message is left as it is; otherwise the buffer holds the
  // one-pass substitution.
  method ApplyParameterStringsToMessage(msg: string, lookup: nat -> Option<string>)
    returns (status: nat, final: Final)
    requires AllParameters(msg)
    ensures final.NoMessage? <==> '%' !in msg
    ensures final.NoMessage? ==> status == ERROR_SUCCESS && Subst(msg, 0, lookup) == Some(msg)
    ensures final.Original? ==> status == ERROR_INVALID_PARAMETER && Subst(msg, 0, lookup).None?
    ensures final.Built? ==> status == ERROR_SUCCESS && Subst(msg, 0, lookup).Some?
                             && fresh(final.buffer) && HoldsText(final.buffer, Subst(msg, 0, lookup).value)
  {
    var count := CountParameters(msg);
    ghost var ps := Params(msg, 0);
    CountIsExact(msg, 0);
    NoneCounted(msg, lookup);
    if count == 0 {
      return ERROR_SUCCESS, NoMessage;
    }
    var starts, ends, ids := new nat[count](_ => 0), new nat[count](_ => 0), new nat[count](_ => 0);
    FindParameters(msg, starts, ends, ids);
    var texts, total, missing := FetchTexts(ids, lookup);
    if missing.Some? {
      SubstNotFound(msg, 0, ps, missing.value, lookup);
      return ERROR_INVALID_PARAMETER, Original;
    }
    var buffer := new char[|msg| + total + 1](_ => '\0');
    BuildMessage(msg, starts, ends, texts, ps, buffer);
    SubstIsAssembled(msg, 0, ps, texts, lookup);
    return ERROR_SUCCESS, Built(buffer);
  }

  // ---------------------------------------------------------------- when the second pass ends

  ghost predicate ParametersUpTo(msg: string, q: nat) {
    forall p {:trigger StartsParameter(msg, p)} :: 0 <= p < q && p < |msg| && msg[p] == '%' ==> StartsParameter(msg, p)
  }

  lemma {:induction false} CursorPassesParameters(msg: string, n: nat)
    ensures ParametersUpTo(msg, Cursor(msg, n))
  {
    if n == 0 {
      PlainBefore(msg, 0);
    } else {
      CursorPassesParameters(msg, n - 1);
      var t := Cursor(msg, n - 1);
      if StartsParameter(msg, t) {
        PlainDigits(msg, t + 1);
        PlainBefore(msg, DigitsEnd(msg, t + 1));
      }
    }
  }

  lemma {:induction false} CursorAdvances(msg: string, n: nat)
    requires AllParameters(msg)
    ensures Cursor(msg, n) >= n || Cursor(msg, n) == |msg|
  {
    if n > 0 {
      CursorAdvances(msg, n - 1);
    }
  }

  // The second pass ends exactly on the messages in which a digit follows every '%'.
  lemma SecondPassEnds(msg: string)
    ensures (exists n :: Cursor(msg, n) == |msg|) <==> AllParameters(msg)
  {
    if n :| Cursor(msg, n) == |msg| {
      CursorPassesParameters(msg, n);
    }
    if AllParameters(msg) {
      CursorAdvances(msg, |msg|);
      assert Cursor(msg, |msg|) == |msg|;
    }
  }

  // For instance, on a message that ends with a percent sign it stands still.
  lemma {:induction false} StandsStill(n: nat)
    ensures !AllParameters("100%") && Cursor("100%", n) == 3
  {
    var msg := "100%";
    assert msg[3] == '%' && !StartsParameter(msg, 3);
    if n > 0 {
      StandsStill(n - 1);
    }
  }

  // ---------------------------------------------------------------- the block of insert strings

  // Zero-terminated strings one behind the other.
  function Block(strings: seq<string>): string {
    if strings == [] then "" else strings[0] + "\0" + Block(strings[1..])
  }

  // The zero-terminated text that starts at p.
  ghost predicate TextAt(block: string, p: nat, text: string) {
    && '\0' !in text
    && p + |text| < |block| && block[p..p + |text|] == text && block[p + |text|] == '\0'
  }

  lemma TextThenRest(block: string, p: nat, text: string, rest: string)
    requires p <= |block| && block[p..] == text + "\0" + rest && '\0' !in text
    ensures TextAt(block, p, text) && block[p + |text| + 1..] == rest
  {
    var n := |text|;
    var view := block[p..];
    assert view[..n] == text && view[n] == '\0' && view[n + 1..] == rest;
    assert block[p..p + n] == view[..n] && block[p + n + 1..] == view[n + 1..];
  }

  lemma HeadOfBlock(block: string, p: nat, strings: seq<string>, rest: string)
    requires strings != [] && p <= |block| && block[p..] == Block(strings) + rest && '\0' !in strings[0]
    ensures TextAt(block, p, strings[0])
    ensures block[p + |strings[0]| + 1..] == Block(strings[1..]) + rest
  {
    var head, tail := strings[0] + "\0", Block(strings[1..]);
    assert (head + tail) + rest == head + (tail + rest);
    TextThenRest(block, p, strings[0], tail + rest);
  }

  method Wcslen(block: string, p: nat, ghost text: string) returns (n: nat)
    requires TextAt(block, p, text)
    ensures n == |text|
  {
    n := 0;
    while block[p + n] != '\0'
      invariant n <= |text|
      decreases |text| - n
    {
      assert block[p..p + |text|][n] == block[p + n];
      n := n + 1;
    }
  }

  // The argument list of FormatMessage: entry i is the place of the i-th string of the block.
  method InsertStrings(block: string, argc: nat, ghost strings: seq<string>, ghost rest: string)
    returns (args: array<nat>)
    requires |strings| == argc && block == Block(strings) + rest
    requires forall i :: 0 <= i < argc ==> '\0' !in strings[i]
    ensures args.Length == argc
    ensures forall i :: 0 <= i < argc ==> TextAt(block, args[i], strings[i])
  {
    args := new nat[argc](_ => 0);
    var i: nat, p: nat := 0, 0;
    assert strings[0..] == strings && block[0..] == block;
    while i < argc
      invariant i <= argc && p <= |block| && block[p..] == Block(strings[i..]) + rest
      invariant forall k :: 0 <= k < i ==> TextAt(block, args[k], strings[k])
    {
      HeadOfBlock(block, p, strings[i..], rest);
      assert strings[i..][0] == strings[i] && strings[i..][1..] == strings[i + 1..];
      args[i] := p;
      var n := Wcslen(block, p, strings[i]);
      p := p + n + 1;
      i := i + 1;
    }
  }
}
