// What holds in every run of the protocol, with no assumption about it: the handshake, and the
// range of every watermark.
module ProtocolOrder {
  import opened Bytes
  import opened Messages
  import opened EventLog
  import opened Protocol

  // One more than the last id sent in the session, or the watermark it began with.
  function Ceiling(b: nat, sent: seq<Event>): nat {
    if sent == [] then b else sent[|sent| - 1].rid + 1
  }

  predicate NoneLive(work: seq<Work>) {
    forall i :: 0 <= i < |work| ==> !work[i].live
  }

  // Work that is all of the session and none of it is no work.
  lemma NoWork(work: seq<Work>)
    ensures AllLive(work) && NoneLive(work) ==> work == []
  {
    assert work != [] ==> (work[0].live || !work[0].live);
  }

  // The sender thread is still suspended.
  predicate Suspended(s: System, f: Forwarder) {
    && f == NewForwarder() && s.sent == [] && s.batches == [] && NoneLive(s.work)
    && s.upDecoded == 0 && s.downDecoded == 0
  }

  predicate Greeting(s: System, f: Forwarder) {
    && s.base.None? && Suspended(s, f)
    && ((s.up == [UpConnect] && s.down == []) || (s.up == [] && s.down == [DownConnect])
        || (s.up == [UpQuery] && s.down == []))
  }

  predicate Answered(s: System, f: Forwarder, b: nat) {
    && Suspended(s, f) && s.up == [] && s.down == [DownReturn(b)] && s.lid + 1 == b
  }

  predicate InRange(v: nat, b: nat, c: nat) { b <= v <= c }

  predicate AcceptsInRange(down: seq<DownMessage>, b: nat, c: nat) {
    forall i :: 0 <= i < |down| ==> down[i].DownAccept? && InRange(down[i].value, b, c)
  }

  predicate BatchesInRange(up: seq<UpMessage>, b: nat, c: nat) {
    forall i :: 0 <= i < |up| ==> up[i].UpLog? && AtLeast(up[i].events, b) && Below(up[i].events, c)
  }

  // What has been sent are events of the log before the cursor, in order, none below b.
  predicate SentUpTo(log: seq<Event>, cursor: nat, b: nat, sent: seq<Event>) {
    && cursor <= |log| && Increasing(sent) && AtLeast(sent, b)
    && forall i :: 0 <= i < |sent| ==> sent[i] in log[..cursor]
  }

  predicate Forwarding(s: System, f: Forwarder, b: nat) {
    var c := Ceiling(b, s.sent);
    && f.started && SentUpTo(s.log, f.cursor, b, s.sent)
    && InRange(f.watermark, b, c) && InRange(s.lid + 1, b, c)
    && AcceptsInRange(s.down, b, c) && BatchesInRange(s.up, b, c)
  }

  predicate SessionOk(s: System, f: Forwarder) {
    if s.base.None? then Greeting(s, f)
    else s.base.value >= 1 && (Answered(s, f, s.base.value) || Forwarding(s, f, s.base.value))
  }

  predicate Inv(s: System) {
    && Increasing(s.log) && s.upDecoded <= |s.up| && s.downDecoded <= |s.down|
    && if s.forwarder.None? then s.up == [] && s.down == [] && NoneLive(s.work)
       else SessionOk(s, s.forwarder.value)
  }

  // ---------------------------------------------------------------- a send

  lemma LaterIsAbove(log: seq<Event>, c: nat, cursor: nat, b: nat, sent: seq<Event>)
    requires Increasing(log) && SentUpTo(log, c, b, sent) && c <= cursor <= |log| && sent != []
    ensures AtLeast(log[c..cursor], Ceiling(b, sent))
  {
    var last, part := sent[|sent| - 1], log[c..cursor];
    var i :| 0 <= i < c && log[i] == last;
    forall j | 0 <= j < |part| ensures part[j].rid > last.rid {
      assert part[j] == log[c + j];
    }
  }

  lemma SameFilter(part: seq<Event>, b: nat, w: nat, c: nat)
    requires InRange(w, b, c) && (AtLeast(part, c) || b == c)
    ensures From(part, w) == From(part, b) && AtLeast(From(part, w), c)
  {
    if b == c {
      FromAtLeast(part, b);
    } else {
      FromAll(part, w);
      FromAll(part, b);
    }
  }

  // The filter never drops an event that was neither stored before the session nor sent in it:
  // whatever the watermark is by now, it keeps of the events behind the cursor what the first
  // watermark would keep, and only events above the ones that were sent.
  lemma FilterIsHarmless(log: seq<Event>, c: nat, cursor: nat, es: seq<Event>, b: nat, w: nat, sent: seq<Event>)
    requires Increasing(log) && SentUpTo(log, c, b, sent) && c <= cursor <= |log| && es <= log[c..cursor]
    requires InRange(w, b, Ceiling(b, sent))
    ensures From(es, w) == From(es, b) && AtLeast(From(es, w), Ceiling(b, sent))
  {
    if sent != [] {
      LaterIsAbove(log, c, cursor, b, sent);
      assert forall i :: 0 <= i < |es| ==> es[i] == log[c..cursor][i];
    }
    SameFilter(es, b, w, Ceiling(b, sent));
  }

  // So where nothing was lost before and all the events are rendered, nothing is lost now.
  lemma NothingLost(log: seq<Event>, c: nat, cursor: nat, b: nat, w: nat, sent: seq<Event>)
    requires Increasing(log) && SentUpTo(log, c, b, sent) && c <= cursor <= |log|
    requires InRange(w, b, Ceiling(b, sent)) && sent == From(log[..c], b)
    ensures sent + From(log[c..cursor], w) == From(log[..cursor], b)
  {
    FilterIsHarmless(log, c, cursor, log[c..cursor], b, w, sent);
    assert log[..c] + log[c..cursor] == log[..cursor];
    FromAppend(log[..c], log[c..cursor], b);
  }

  lemma CeilingCovers(es: seq<Event>, b: nat)
    requires Increasing(es)
    ensures Below(es, Ceiling(b, es))
  {
  }

  lemma CeilingGrows(b: nat, sent: seq<Event>, more: seq<Event>)
    requires AtLeast(more, Ceiling(b, sent))
    ensures Ceiling(b, sent) <= Ceiling(b, sent + more)
  {
    if more != [] {
      assert (sent + more)[|sent + more| - 1] == more[|more| - 1];
    } else {
      assert sent + more == sent;
    }
  }

  lemma TailBelow(sent: seq<Event>, more: seq<Event>, b: nat)
    requires Increasing(sent + more)
    ensures Below(more, Ceiling(b, sent + more))
  {
    CeilingCovers(sent + more, b);
    forall i | 0 <= i < |more| ensures more[i].rid < Ceiling(b, sent + more) {
      assert (sent + more)[|sent| + i] == more[i];
    }
  }

  // `more` continues what was sent up to the new cursor, above it and in order.
  predicate Continues(log: seq<Event>, b: nat, sent: seq<Event>, more: seq<Event>, cursor: nat) {
    && SentUpTo(log, cursor, b, sent + more) && Increasing(more)
    && AtLeast(more, Ceiling(b, sent)) && Below(more, Ceiling(b, sent + more))
    && Ceiling(b, sent) <= Ceiling(b, sent + more)
  }

  lemma SentGrows(log: seq<Event>, c: nat, cursor: nat, b: nat, sent: seq<Event>, more: seq<Event>)
    requires SentUpTo(log, c, b, sent) && c <= cursor <= |log| && Increasing(more)
    requires b <= Ceiling(b, sent) && AtLeast(more, Ceiling(b, sent))
    requires forall i :: 0 <= i < |more| ==> more[i] in log[c..cursor]
    ensures SentUpTo(log, cursor, b, sent + more)
  {
    var all := sent + more;
    forall i | 0 <= i < |all| ensures all[i] in log[..cursor] && all[i].rid >= b {
      if i < |sent| {
        var k :| 0 <= k < c && log[k] == all[i];
        assert log[..cursor][k] == all[i];
      } else {
        var k :| 0 <= k < cursor - c && log[c..cursor][k] == more[i - |sent|];
        assert log[..cursor][c + k] == all[i];
      }
    }
    forall i, j | 0 <= i < j < |all| ensures all[i].rid < all[j].rid {
      if i < |sent| <= j {
        assert all[i].rid <= sent[|sent| - 1].rid < more[j - |sent|].rid;
      }
    }
  }

  lemma KeptAreRead(read: seq<Event>, es: seq<Event>, w: nat)
    requires Increasing(read) && es <= read
    ensures Increasing(From(es, w))
    ensures forall i :: 0 <= i < |From(es, w)| ==> From(es, w)[i] in read
  {
    assert Increasing(es);
    FromIncreasing(es, w);
    forall i | 0 <= i < |From(es, w)| ensures From(es, w)[i] in read {
      FromHolds(es, w, From(es, w)[i]);
    }
  }

  // A batch of events between two places of the cursor, with a watermark that may have moved since
  // the session began.
  lemma BatchExtends(log: seq<Event>, c: nat, cursor: nat, es: seq<Event>, b: nat, w: nat,
                     sent: seq<Event>, more: seq<Event>)
    requires Increasing(log) && SentUpTo(log, c, b, sent) && c <= cursor <= |log| && es <= log[c..cursor]
    requires InRange(w, b, Ceiling(b, sent)) && more == From(es, w)
    ensures Continues(log, b, sent, more, cursor)
  {
    assert Increasing(log[c..cursor]);
    FilterIsHarmless(log, c, cursor, es, b, w, sent);
    KeptAreRead(log[c..cursor], es, w);
    SentGrows(log, c, cursor, b, sent, more);
    CeilingGrows(b, sent, more);
    TailBelow(sent, more, b);
  }

  lemma NextEventsAre(f: Forwarder, log: seq<Event>)
    requires f.cursor <= |log|
    ensures var n := |NextEvents(f, log)|;
            f.cursor + n <= |log| && NextEvents(f, log) == log[f.cursor..f.cursor + n]
  {
  }

  lemma DeliveredAre(f: Forwarder, log: seq<Event>, r: Reading)
    requires f.cursor <= |log|
    ensures f.cursor <= AfterSend(f, log, r).cursor <= |log|
    ensures Delivered(f, log, r) == log[f.cursor..AfterSend(f, log, r).cursor]
  {
    NextEventsAre(f, log);
  }

  lemma BatchInRange(f: Forwarder, log: seq<Event>, b: nat, sent: seq<Event>, r: Reading)
    requires Increasing(log) && SentUpTo(log, f.cursor, b, sent) && InRange(f.watermark, b, Ceiling(b, sent))
    ensures Continues(log, b, sent, Batch(f, log, r).events, AfterSend(f, log, r).cursor)
  {
    DeliveredAre(f, log, r);
    BatchExtends(log, f.cursor, AfterSend(f, log, r).cursor, Rendered(Delivered(f, log, r), r), b, f.watermark,
                 sent, Batch(f, log, r).events);
  }

  lemma FloorStays(es: seq<Event>, v: nat, w: nat)
    requires AtLeast(es, w) && v <= w
    ensures AtLeast(es, v)
  {
  }

  lemma CeilingAboveBase(s: System, f: Forwarder, b: nat)
    requires Forwarding(s, f, b)
    ensures b <= Ceiling(b, s.sent)
  {
  }

  // ---------------------------------------------------------------- steps

  lemma BatchesStay(up: seq<UpMessage>, m: UpMessage, b: nat, c: nat, d: nat)
    requires BatchesInRange(up, b, c) && c <= d
    requires m.UpLog? && AtLeast(m.events, b) && Below(m.events, d)
    ensures BatchesInRange(up + [m], b, d)
  {
  }

  lemma AcceptsStay(down: seq<DownMessage>, b: nat, c: nat, d: nat)
    requires AcceptsInRange(down, b, c) && c <= d
    ensures AcceptsInRange(down, b, d)
  {
  }

  lemma SendKeepsForwarding(s: System, f: Forwarder, b: nat, r: Reading)
    requires Increasing(s.log) && s.forwarder == Some(f) && Forwarding(s, f, b)
    ensures Forwarding(DoSend(s, r), AfterSend(f, s.log, r), b)
  {
    var m := Batch(f, s.log, r);
    var c, d := Ceiling(b, s.sent), Ceiling(b, s.sent + m.events);
    BatchInRange(f, s.log, b, s.sent, r);
    CeilingAboveBase(s, f, b);
    FloorStays(m.events, b, c);
    BatchesStay(s.up, m, b, c, d);
    AcceptsStay(s.down, b, c, d);
  }

  lemma SendKeeps(s: System, r: Reading)
    requires Inv(s) && Enabled(s, Send(r))
    ensures Inv(DoSend(s, r))
  {
    SendKeepsForwarding(s, s.forwarder.value, s.base.value, r);
  }

  lemma ServerReadsKeeps(s: System, n: nat)
    requires Inv(s) && Enabled(s, ServerReads(n))
    ensures Inv(Apply(s, ServerReads(n)))
  {
    if s.up[0].UpLog? {
      assert BatchesInRange(s.up, s.base.value, Ceiling(s.base.value, s.sent));
    }
  }

  lemma ClientReadsKeeps(s: System, n: nat)
    requires Inv(s) && Enabled(s, ClientReads(n))
    ensures Inv(Apply(s, ClientReads(n)))
  {
  }

  lemma InsertKeeps(s: System, i: nat, abort: bool)
    requires Inv(s) && i < |s.work|
    ensures Inv(Apply(s, Insert(i, abort)))
  {
  }

  lemma OtherKeeps(s: System, a: Action)
    requires Inv(s) && Enabled(s, a)
    requires a.Append? || a.Connect? || a.Disconnect? || a.DropWork? || a.Reset?
    ensures Inv(Apply(s, a))
  {
    if a.Disconnect? {
      OrphansKeepEvents(s.work);
    }
    if a.Append? && s.forwarder.Some? && s.forwarder.value.cursor <= |s.log| {
      assert (s.log + [a.e])[..s.forwarder.value.cursor] == s.log[..s.forwarder.value.cursor];
    }
  }

  lemma ApplyKeeps(s: System, a: Action)
    requires Inv(s) && Enabled(s, a)
    ensures Inv(Apply(s, a))
  {
    match a
    case Send(r) => SendKeeps(s, r);
    case ServerReads(n) => ServerReadsKeeps(s, n);
    case ClientReads(n) => ClientReadsKeeps(s, n);
    case Insert(i, abort) => InsertKeeps(s, i, abort);
    case _ => OtherKeeps(s, a);
  }

  lemma {:induction false} RunsKeep(p: Policy, actions: seq<Action>)
    requires RunFrom(p, Start(), actions).Some?
    ensures Inv(RunFrom(p, Start(), actions).value)
    decreases |actions|
  {
    if actions != [] {
      var front := actions[..|actions| - 1];
      RunsKeep(p, front);
      ApplyKeeps(RunFrom(p, Start(), front).value, actions[|actions| - 1]);
    }
  }

  // ---------------------------------------------------------------- widths

  predicate BatchesNarrow(work: seq<Work>, up: seq<UpMessage>) {
    && (forall i :: 0 <= i < |work| ==> Below(work[i].events, RID_LIMIT))
    && (forall i :: 0 <= i < |up| && up[i].UpLog? ==> Below(up[i].events, RID_LIMIT))
  }

  // Everything that is computed from ids stays in the range of a signed 32-bit number.
  predicate Narrow(s: System) {
    && Below(s.log, RID_LIMIT) && Below(s.rows, RID_LIMIT) && Below(s.sent, RID_LIMIT)
    && BatchesNarrow(s.work, s.up)
    && s.lid < RID_LIMIT && (s.base.Some? ==> s.base.value <= RID_LIMIT)
  }

  lemma SendKeepsNarrow(s: System, r: Reading)
    requires Narrow(s) && s.forwarder.Some?
    ensures Narrow(DoSend(s, r))
  {
    var read := Delivered(s.forwarder.value, s.log, r);
    assert Below(read, RID_LIMIT);
    FromBelow(Rendered(read, r), RID_LIMIT, s.forwarder.value.watermark);
  }

  lemma ServerReadsKeepsNarrow(s: System, n: nat)
    requires Narrow(s) && Arrives(s.up, s.upDecoded, n)
    ensures Narrow(DoServerReads(s, n))
  {
    MaxRidBounds(s.rows);
  }

  lemma DisconnectKeepsNarrow(s: System)
    requires Narrow(s)
    ensures Narrow(DoDisconnect(s))
  {
    OrphansSameEvents(s.work);
  }

  lemma {:induction false} OrphansSameEvents(work: seq<Work>)
    ensures forall i :: 0 <= i < |work| ==> Orphans(work)[i].events == work[i].events
  {
    if work != [] {
      OrphansSameEvents(work[..|work| - 1]);
    }
  }

  lemma ApplyKeepsNarrow(s: System, a: Action)
    requires Narrow(s) && Enabled(s, a)
    ensures Narrow(Apply(s, a))
  {
    match a
    case Send(r) => SendKeepsNarrow(s, r);
    case ServerReads(n) => ServerReadsKeepsNarrow(s, n);
    case Disconnect => DisconnectKeepsNarrow(s);
    case _ =>
  }

  lemma {:induction false} RunsKeepNarrow(p: Policy, actions: seq<Action>)
    requires RunFrom(p, Start(), actions).Some?
    ensures Narrow(RunFrom(p, Start(), actions).value)
    decreases |actions|
  {
    if actions != [] {
      RunsKeepNarrow(p, actions[..|actions| - 1]);
      ApplyKeepsNarrow(RunFrom(p, Start(), actions[..|actions| - 1]).value, actions[|actions| - 1]);
    }
  }

  // ---------------------------------------------------------------- what a run shows

  function ValueOf(m: DownMessage): nat {
    match m
    case DownConnect => 0
    case DownReturn(v) => v
    case DownAccept(v) => v
  }

  // In every run: once the server has computed a session's first watermark b, every value on its
  // way to the client and the server's next one are at least b and at most one more than the last
  // id sent (or b), and none of them outgrows 32 bits. So is the client's watermark once the sender
  // has started, and then what has been sent are events of the log read so far, each once, in order,
  // none of them below b; before that nothing has been sent, and b is under way.
  lemma WatermarksInRange(p: Policy, actions: seq<Action>)
    requires RunFrom(p, Start(), actions).Some?
    ensures var s := RunFrom(p, Start(), actions).value;
            && (s.forwarder.Some? && s.base.Some? ==>
                  var f, b, c := s.forwarder.value, s.base.value, Ceiling(s.base.value, s.sent);
                  && b >= 1 && c <= RID_LIMIT && InRange(s.lid + 1, b, c)
                  && (forall i :: 0 <= i < |s.down| ==> InRange(ValueOf(s.down[i]), b, c))
                  && if f.started then
                       && (forall i :: 0 <= i < |s.down| ==> s.down[i].DownAccept?)
                       && InRange(f.watermark, b, c) && SentUpTo(s.log, f.cursor, b, s.sent)
                     else f.watermark == 0 && s.sent == [] && s.down == [DownReturn(b)])
            && (s.forwarder.Some? && s.forwarder.value.started ==> s.base.Some?)
  {
    RunsKeep(p, actions);
    RunsKeepNarrow(p, actions);
  }

  // In every run: a batch is under way, or was sent in the session, only after the client has
  // received a watermark and resumed its sender; and by then the handshake is over, so no second
  // RETURN can reach it and the connection is greeted and queried once.
  lemma HandshakeFirst(p: Policy, actions: seq<Action>)
    requires RunFrom(p, Start(), actions).Some?
    ensures var s := RunFrom(p, Start(), actions).value;
            && ((exists i :: 0 <= i < |s.up| && s.up[i].UpLog?) || (s.forwarder.Some? && s.batches != [])
                ==> s.forwarder.Some? && s.forwarder.value.started && s.forwarder.value.watermark >= 1)
            && (s.forwarder.Some? && s.forwarder.value.started ==>
                && (forall i :: 0 <= i < |s.down| ==> s.down[i].DownAccept?)
                && (forall i :: 0 <= i < |s.up| ==> s.up[i].UpLog?))
  {
    RunsKeep(p, actions);
  }
}
