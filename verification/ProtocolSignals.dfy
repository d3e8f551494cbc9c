// Which of the two signals the sender takes first, and what an acceptance tells it: laws over runs
// that do not name the functions by which the steps are defined.
module ProtocolSignals {
  import opened Bytes
  import opened Messages
  import opened EventLog
  import opened Protocol
  import opened ProtocolOrder

  // ---------------------------------------------------------------- both signals set

  // An event was logged after the last send.
  predicate LoggedSinceSend(actions: seq<Action>)
    decreases |actions|
  {
    actions != [] &&
    var last := actions[|actions| - 1];
    last.Append? || (!last.Send? && LoggedSinceSend(actions[..|actions| - 1]))
  }

  predicate SubscriptionSet(s: System) { s.forwarder.Some? && s.forwarder.value.subscribe }

  lemma StepRaisesSubscription(s: System, a: Action)
    requires Enabled(s, a) && Resetting(Apply(s, a), Upload) && SubscriptionSet(Apply(s, a))
    ensures a.Append? || (!a.Send? && Resetting(s, Upload) && SubscriptionSet(s))
  {
  }

  // The subscription's signal goes first. In every run: if the upload signal is about to be reset
  // while that of the subscription is set, an event was logged since the send.
  lemma {:induction false} UploadGoesSecond(p: Policy, actions: seq<Action>)
    requires RunFrom(p, Start(), actions).Some?
    ensures var s := RunFrom(p, Start(), actions).value;
            Resetting(s, Upload) && SubscriptionSet(s) ==> LoggedSinceSend(actions)
    decreases |actions|
  {
    if actions != [] {
      var front, a := actions[..|actions| - 1], actions[|actions| - 1];
      var s := RunFrom(p, Start(), front).value;
      UploadGoesSecond(p, front);
      if Resetting(Apply(s, a), Upload) && SubscriptionSet(Apply(s, a)) {
        StepRaisesSubscription(s, a);
      }
    }
  }

  function Resets(actions: seq<Action>): nat {
    if actions == [] then 0
    else Resets(actions[..|actions| - 1]) + if actions[|actions| - 1].Reset? then 1 else 0
  }

  // After n resets: the upload signal is set, and before the first one it is not going to be reset.
  predicate Pending(s: System, n: nat) {
    && s.forwarder.Some? && s.forwarder.value.upload
    && (n == 0 ==> s.forwarder.value.subscribe && !Resetting(s, Upload))
  }

  lemma StepKeepsPending(s: System, a: Action, n: nat)
    requires Enabled(s, a) && Pending(s, n) && !a.Disconnect? && (a.Reset? ==> n == 0)
    ensures Pending(Apply(s, a), if a.Reset? then n + 1 else n)
  {
  }

  // So an acceptance that comes in while the subscription's signal is set stays pending over the next
  // reset, whatever else happens in the session.
  lemma {:induction false} UploadOutlastsReset(p: Policy, s: System, actions: seq<Action>)
    requires SubscriptionSet(s) && s.forwarder.value.upload && !Resetting(s, Upload)
    requires RunFrom(p, s, actions).Some? && Disconnect !in actions && Resets(actions) <= 1
    ensures Pending(RunFrom(p, s, actions).value, Resets(actions))
    decreases |actions|
  {
    if actions != [] {
      var front, a := actions[..|actions| - 1], actions[|actions| - 1];
      UploadOutlastsReset(p, s, front);
      StepKeepsPending(RunFrom(p, s, front).value, a, Resets(front));
    }
  }

  // ---------------------------------------------------------------- what a sequence of messages tells

  function AfterAll(f: Forwarder, ms: seq<DownMessage>): Forwarder {
    if ms == [] then f else AfterMessage(AfterAll(f, ms[..|ms| - 1]), ms[|ms| - 1])
  }

  predicate AllReturns(ms: seq<DownMessage>) {
    forall i :: 0 <= i < |ms| ==> ms[i].DownReturn?
  }

  // No CONNECT, which is not handed to the forwarder, and no watermark of 0.
  predicate Watermarks(ms: seq<DownMessage>) {
    forall i :: 0 <= i < |ms| ==> !ms[i].DownConnect? && ValueOf(ms[i]) >= 1
  }

  // A new process: its sender is resumed if and only if the first message is a RETURN.
  lemma {:induction false} FirstResumes(ms: seq<DownMessage>)
    requires Watermarks(ms)
    ensures var g := AfterAll(NewForwarder(), ms);
            && (g.started <==> ms != [] && ms[0].DownReturn?) && (g.watermark >= 1 <==> ms != [])
            && g.subscribe && g.cursor == 0 && g.resetting.None?
  {
    if ms != [] {
      FirstResumes(ms[..|ms| - 1]);
    }
  }

  // Of several RETURNs, only one that comes before all other watermarks counts.
  lemma {:induction false} FirstReturnTells(f: Forwarder, ms: seq<DownMessage>)
    requires Watermarks(ms) && AllReturns(ms)
    ensures AfterAll(f, ms)
         == if f.watermark == 0 && ms != [] then f.(watermark := ms[0].value, started := true) else f
  {
    if ms != [] {
      FirstReturnTells(f, ms[..|ms| - 1]);
    }
  }

  lemma {:induction false} AfterAppend(f: Forwarder, a: seq<DownMessage>, b: seq<DownMessage>)
    ensures AfterAll(f, a + b) == AfterAll(AfterAll(f, a), b)
  {
    if b == [] {
      assert a + b == a;
    } else {
      assert (a + b)[..|a + b| - 1] == a + b[..|b| - 1];
      AfterAppend(f, a, b[..|b| - 1]);
    }
  }

  // Of several ACCEPTs the last one counts, whatever RETURNs come after it.
  lemma LastAcceptTells(ms: seq<DownMessage>, v: nat, more: seq<DownMessage>)
    requires Watermarks(ms) && v >= 1 && Watermarks(more) && AllReturns(more)
    ensures AfterAll(NewForwarder(), ms + [DownAccept(v)] + more)
         == Forwarder(v, true, true, ms != [] && ms[0].DownReturn?, 0, None)
  {
    FirstResumes(ms);
    var f := AfterAll(NewForwarder(), ms);
    assert [DownAccept(v)][..0] == [];
    assert AfterAll(f, [DownAccept(v)]) == AfterMessage(f, DownAccept(v));
    AfterAppend(NewForwarder(), ms, [DownAccept(v)]);
    AfterAppend(NewForwarder(), ms + [DownAccept(v)], more);
    FirstReturnTells(AfterMessage(f, DownAccept(v)), more);
  }

  // ---------------------------------------------------------------- what an acceptance tells

  // The events on their way are the last ones that were sent, and the id is that of the last one
  // before them, or one less than the first watermark.
  predicate LastIdOf(lid: nat, b: nat, sent: seq<Event>, coming: seq<Event>) {
    var got := |sent| - |coming|;
    0 <= got && sent[got..] == coming && lid + 1 == Ceiling(b, sent[..got])
  }

  lemma MoreSent(lid: nat, b: nat, sent: seq<Event>, coming: seq<Event>, es: seq<Event>)
    requires LastIdOf(lid, b, sent, coming)
    ensures LastIdOf(lid, b, sent + es, coming + es)
  {
    var got := |sent| - |coming|;
    assert (sent + es)[got..] == sent[got..] + es;
    assert (sent + es)[..got] == sent[..got];
  }

  lemma MoreReceived(lid: nat, b: nat, sent: seq<Event>, es: seq<Event>, coming: seq<Event>)
    requires LastIdOf(lid, b, sent, es + coming)
    ensures LastIdOf(if es == [] then lid else es[|es| - 1].rid, b, sent, coming)
  {
    var before := |sent| - |es + coming|;
    var got := before + |es|;
    assert sent[before..][|es|..] == coming && sent[got..] == sent[before..][|es|..];
    if es != [] {
      assert sent[before..][|es| - 1] == es[|es| - 1];
    }
  }

  // Before the query it is 1.
  predicate LastIdExact(s: System) {
    s.forwarder.Some? ==>
      if s.base.Some? then LastIdOf(s.lid, s.base.value, s.sent, UpEvents(s.up)) else s.lid == 1
  }

  lemma SendKeepsLastId(s: System, r: Reading)
    requires LastIdExact(s) && s.forwarder.Some?
    ensures LastIdExact(DoSend(s, r))
  {
    var m := Batch(s.forwarder.value, s.log, r);
    if s.base.Some? {
      UpEventsSnoc(s.up, m);
      MoreSent(s.lid, s.base.value, s.sent, UpEvents(s.up), m.events);
    }
  }

  lemma BatchReadKeepsLastId(s: System, n: nat, b: nat)
    requires LastIdOf(s.lid, b, s.sent, UpEvents(s.up)) && Enabled(s, ServerReads(n)) && s.up[0].UpLog?
    ensures LastIdOf(DoServerReads(s, n).lid, b, s.sent, UpEvents(s.up[1..]))
  {
    UpEventsHead(s.up);
    MoreReceived(s.lid, b, s.sent, s.up[0].events, UpEvents(s.up[1..]));
  }

  lemma QueryReadKeepsLastId(s: System, n: nat)
    requires s.sent == [] && |s.up| == 1 && s.up[0].UpQuery? && Enabled(s, ServerReads(n))
    ensures LastIdExact(DoServerReads(s, n))
  {
    assert s.up[1..] == [];
  }

  lemma ConnectReadKeepsLastId(s: System, n: nat)
    requires s.base.None? && s.up != [] && s.up[0].UpConnect? && Enabled(s, ServerReads(n)) && LastIdExact(s)
    ensures LastIdExact(DoServerReads(s, n))
  {
  }

  lemma HandshakeIsAlone(s: System)
    requires Inv(s) && s.forwarder.Some? && s.up != [] && !s.up[0].UpLog?
    ensures s.sent == [] && |s.up| == 1 && s.base.None?
  {
  }

  lemma BatchHasBase(s: System)
    requires Inv(s) && s.forwarder.Some? && s.up != [] && s.up[0].UpLog?
    ensures s.base.Some?
  {
  }

  lemma ServerReadsKeepsLastId(s: System, n: nat)
    requires Inv(s) && LastIdExact(s) && Enabled(s, ServerReads(n)) && s.forwarder.Some?
    ensures LastIdExact(DoServerReads(s, n))
  {
    match s.up[0]
    case UpLog(_, _) =>
      BatchHasBase(s);
      BatchReadKeepsLastId(s, n, s.base.value);
    case UpQuery =>
      HandshakeIsAlone(s);
      QueryReadKeepsLastId(s, n);
    case UpConnect =>
      HandshakeIsAlone(s);
      ConnectReadKeepsLastId(s, n);
  }

  lemma ClientReadsKeepsLastId(s: System, n: nat)
    requires LastIdExact(s) && Enabled(s, ClientReads(n))
    ensures LastIdExact(DoClientReads(s, n))
  {
    UpEventsSnoc(s.up, UpQuery);
    assert UpEvents(s.up) + EventsOf(UpQuery) == UpEvents(s.up);
  }

  lemma ApplyKeepsLastId(s: System, a: Action)
    requires Inv(s) && LastIdExact(s) && Enabled(s, a)
    ensures LastIdExact(Apply(s, a))
  {
    match a
    case Send(r) => SendKeepsLastId(s, r);
    case ServerReads(n) => if s.forwarder.Some? { ServerReadsKeepsLastId(s, n); }
    case ClientReads(n) => ClientReadsKeepsLastId(s, n);
    case _ =>
  }

  // In every run, once it has been queried, the server's last id is exactly that of the last event
  // received in the session, or of the last one stored before.
  lemma {:induction false} LastIdIsExact(p: Policy, actions: seq<Action>)
    requires RunFrom(p, Start(), actions).Some?
    ensures LastIdExact(RunFrom(p, Start(), actions).value)
    decreases |actions|
  {
    if actions != [] {
      var front, a := actions[..|actions| - 1], actions[|actions| - 1];
      LastIdIsExact(p, front);
      RunsKeep(p, front);
      ApplyKeepsLastId(RunFrom(p, Start(), front).value, a);
    }
  }

  predicate OnlyClientReads(actions: seq<Action>) {
    forall i :: 0 <= i < |actions| ==> actions[i].ClientReads?
  }

  // Reads of the client take the messages from its channel one by one.
  lemma {:induction false} ReadsTake(p: Policy, s: System, taken: seq<Action>)
    requires s.forwarder.Some? && OnlyClientReads(taken) && RunFrom(p, s, taken).Some?
    ensures var t := RunFrom(p, s, taken).value;
            && |taken| <= |s.down| && t.down == s.down[|taken|..]
            && t.forwarder == Some(AfterAll(s.forwarder.value, s.down[..|taken|]))
    decreases |taken|
  {
    if taken != [] {
      var front, n := taken[..|taken| - 1], |taken|;
      ReadsTake(p, s, front);
      var t := RunFrom(p, s, front).value;
      assert t.down[0] == s.down[n - 1] && t.down[1..] == s.down[n..];
      assert s.down[..n][..n - 1] == s.down[..n - 1];
    }
  }

  lemma LastValueTold(f: Forwarder, down: seq<DownMessage>, v: nat)
    ensures var g := AfterAll(f, down + [DownAccept(v)]); g.watermark == v && g.upload
  {
    assert (down + [DownAccept(v)])[..|down|] == down;
  }

  lemma AllTaken(p: Policy, s: System, v: nat, down: seq<DownMessage>, taken: seq<Action>, t: System)
    requires s.forwarder.Some? && s.down == down + [DownAccept(v)]
    requires OnlyClientReads(taken) && Takes(p, s, taken, t) && |taken| == |s.down|
    ensures t.forwarder.Some? && t.forwarder.value.upload && t.forwarder.value.watermark == v
  {
    RunTakes(p, s, taken, t);
    ReadsTake(p, s, taken);
    assert s.down[..|taken|] == down + [DownAccept(v)];
    LastValueTold(s.forwarder.value, down, v);
  }

  lemma LastIdOfRun(p: Policy, actions: seq<Action>, s: System)
    requires Takes(p, Start(), actions, s)
    ensures LastIdExact(s)
  {
    RunTakes(p, Start(), actions, s);
    LastIdIsExact(p, actions);
  }

  // In every run: once the client has read the acceptance that an insertion sends, its watermark is one
  // more than the id of the last event that the server had received at the insertion (or still the
  // first watermark), and its upload signal is set.
  lemma AcceptanceArrives(p: Policy, actions: seq<Action>, s: System, i: nat, abort: bool, taken: seq<Action>,
                          t: System)
    requires Takes(p, Start(), actions, s) && s.forwarder.Some? && s.base.Some?
    requires i < |s.work| && s.work[i].needAccept && s.work[i].live
    requires OnlyClientReads(taken) && |taken| == |s.down| + 1 && Takes(p, DoInsert(s, i, abort), taken, t)
    ensures var got := |s.sent| - |UpEvents(s.up)|;
            && t.forwarder.Some? && t.forwarder.value.upload
            && 0 <= got && t.forwarder.value.watermark == Ceiling(s.base.value, s.sent[..got])
  {
    LastIdOfRun(p, actions, s);
    AllTaken(p, DoInsert(s, i, abort), s.lid + 1, s.down, taken, t);
  }
}
