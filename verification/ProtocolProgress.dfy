// The sender never stalls while events are unread, and drains a backlog in the expected batches.
module ProtocolProgress {
  import opened Bytes
  import opened Messages
  import opened EventLog
  import opened Protocol
  import opened ProtocolOrder

  function One(b: bool): nat { if b then 1 else 0 }

  predicate Asks(m: UpMessage) { m.UpLog? && m.needAccept }

  predicate WillAnswer(w: Work) { w.needAccept && w.live }

  // How many messages and queued insertions will each lead to one acceptance.
  function AskedIn(up: seq<UpMessage>): nat {
    if up == [] then 0 else AskedIn(up[..|up| - 1]) + One(Asks(up[|up| - 1]))
  }

  function QueuedIn(work: seq<Work>): nat {
    if work == [] then 0 else QueuedIn(work[..|work| - 1]) + One(WillAnswer(work[|work| - 1]))
  }

  // The part of a channel that is still to arrive. What has been decoded and not handled does not
  // count: it waits for another arrival.
  function Undecoded<T>(channel: seq<T>, decoded: nat): seq<T> {
    if decoded <= |channel| then channel[decoded..] else []
  }

  // The acceptances that are due: batches, insertions and acceptances under way.
  function Due(s: System): nat {
    AskedIn(Undecoded(s.up, s.upDecoded)) + QueuedIn(s.work) + |Undecoded(s.down, s.downDecoded)|
  }

  // The wakeups that are pending or will come. A signal about to be reset is not one.
  function Tokens(s: System, f: Forwarder): nat {
    One(f.subscribe && f.resetting != Some(Subscribe)) + One(f.upload && f.resetting != Some(Upload)) + Due(s)
  }

  lemma {:induction false} AskedAppend(a: seq<UpMessage>, b: seq<UpMessage>)
    ensures AskedIn(a + b) == AskedIn(a) + AskedIn(b)
  {
    if b == [] {
      assert a + b == a;
    } else {
      assert (a + b)[..|a + b| - 1] == a + b[..|b| - 1];
      AskedAppend(a, b[..|b| - 1]);
    }
  }

  lemma {:induction false} QueuedAppend(a: seq<Work>, b: seq<Work>)
    ensures QueuedIn(a + b) == QueuedIn(a) + QueuedIn(b)
  {
    if b == [] {
      assert a + b == a;
    } else {
      assert (a + b)[..|a + b| - 1] == a + b[..|b| - 1];
      QueuedAppend(a, b[..|b| - 1]);
    }
  }

  lemma AskedOne(m: UpMessage)
    ensures AskedIn([m]) == One(Asks(m))
  {
    assert [m][..0] == [];
  }

  lemma QueuedOne(w: Work)
    ensures QueuedIn([w]) == One(WillAnswer(w))
  {
    assert [w][..0] == [];
  }

  lemma AllUndecoded<T>(channel: seq<T>)
    ensures Undecoded(channel, 0) == channel
  {
  }

  // ---------------------------------------------------------------- how the steps move what is due

  lemma SendDue(s: System, r: Reading)
    requires s.forwarder.Some? && s.upDecoded == 0
    ensures var asks := One(Batch(s.forwarder.value, s.log, r).needAccept);
            Due(DoSend(s, r)) == Due(s) + asks && AskedIn(DoSend(s, r).up) == AskedIn(s.up) + asks
  {
    AskedAppend(s.up, [Batch(s.forwarder.value, s.log, r)]);
    AskedOne(Batch(s.forwarder.value, s.log, r));
    AllUndecoded(s.up);
    AllUndecoded(DoSend(s, r).up);
  }

  lemma ServerReadsDue(s: System)
    requires s.upDecoded == 0 && s.up != [] && s.up[0].UpLog?
    ensures Due(DoServerReads(s, 1)) == Due(s)
    ensures var t := DoServerReads(s, 1);
            && QueuedIn(t.work) == QueuedIn(s.work) + One(s.up[0].needAccept)
            && AskedIn(t.up) + One(s.up[0].needAccept) == AskedIn(s.up)
  {
    var m := s.up[0];
    var w := Work(m.events, m.needAccept, true);
    assert s.up == [m] + s.up[1..];
    AskedAppend([m], s.up[1..]);
    AskedOne(m);
    QueuedAppend(s.work, [w]);
    QueuedOne(w);
    AllUndecoded(s.up);
    AllUndecoded(s.up[1..]);
  }

  lemma QueuedAround(work: seq<Work>, others: seq<Work>, before: seq<Work>, w: Work, after: seq<Work>)
    requires work == before + ([w] + after) && others == before + after
    ensures QueuedIn(work) == QueuedIn(others) + One(WillAnswer(w))
  {
    QueuedAppend(before, [w] + after);
    QueuedAppend([w], after);
    QueuedOne(w);
    QueuedAppend(before, after);
  }

  lemma QueuedWithout(work: seq<Work>, i: nat)
    requires i < |work|
    ensures QueuedIn(work) == QueuedIn(work[..i] + work[i + 1..]) + One(WillAnswer(work[i]))
  {
    WorkAround(work, i);
    QueuedAround(work, work[..i] + work[i + 1..], work[..i], work[i], work[i + 1..]);
  }

  lemma InsertDue(s: System, i: nat, abort: bool)
    requires i < |s.work| && s.downDecoded <= |s.down|
    ensures Due(DoInsert(s, i, abort)) == Due(s)
    ensures var t := DoInsert(s, i, abort);
            && QueuedIn(s.work) == QueuedIn(t.work) + One(WillAnswer(s.work[i]))
            && |t.down| == |s.down| + One(WillAnswer(s.work[i]))
  {
    QueuedWithout(s.work, i);
  }

  lemma ClientReadsDue(s: System, n: nat)
    requires s.forwarder.Some? && Arrives(s.down, s.downDecoded, n) && s.down[0].DownAccept?
    ensures Due(DoClientReads(s, n)) + n == Due(s)
  {
  }

  // ---------------------------------------------------------------- no stall

  // While an event is unread, a wakeup is pending or will come.
  predicate Moving(s: System) {
    (s.forwarder.Some? && s.forwarder.value.started && Unread(s.forwarder.value, s.log) != [])
    ==> Tokens(s, s.forwarder.value) > 0
  }

  // Nothing goes wrong in reading a batch.
  predicate ReadsWell(f: Forwarder, log: seq<Event>, r: Reading) {
    r.nextFails.None? && Rendered(Delivered(f, log, r), r) == Delivered(f, log, r)
  }

  // A wakeup with unread events always reads some, and reads all of them unless its batch is full;
  // it asks for acceptance exactly if the batch is full, unless an event cannot be rendered.
  lemma WakeupReads(f: Forwarder, log: seq<Event>, r: Reading)
    requires f.cursor <= |log| && r.nextFails.None?
    ensures var u := |Unread(AfterSend(f, log, r), log)|;
            && u == (if |Unread(f, log)| <= EVENTS_PER_SEND then 0 else |Unread(f, log)| - EVENTS_PER_SEND)
            && (Unread(f, log) != [] ==> u < |Unread(f, log)|)
            && (Batch(f, log, r).needAccept ==> |Unread(f, log)| >= EVENTS_PER_SEND)
            && (ReadsWell(f, log, r) && |Unread(f, log)| >= EVENTS_PER_SEND ==> Batch(f, log, r).needAccept)
  {
    NextEventsAre(f, log);
  }

  // A wakeup takes the events from the cursor to e: at most 30, none behind the first that cannot be
  // rendered, and otherwise all there are; none if EvtNext fails.
  predicate TakesUpTo(f: Forwarder, log: seq<Event>, r: Reading, e: nat) {
    && f.cursor <= e <= |log| && e - f.cursor <= EVENTS_PER_SEND
    && (r.renderFails.Some? ==> e - f.cursor <= r.renderFails.value)
    && if r.nextFails.Some? then e == f.cursor
       else e == |log| || e - f.cursor == EVENTS_PER_SEND || r.renderFails == Some(e - f.cursor)
  }

  lemma RenderedAre(f: Forwarder, log: seq<Event>, r: Reading, e: nat)
    requires TakesUpTo(f, log, r, e)
    ensures Rendered(Delivered(f, log, r), r) == log[f.cursor..e]
  {
    NextEventsAre(f, log);
    var u := log[f.cursor..];
    assert u[..e - f.cursor] == log[f.cursor..e];
  }

  // It sends of them what the watermark lets through. It asks for acceptance if it took 30, or if the
  // status is 30; and it moves the cursor behind all that was delivered.
  lemma BatchIsExact(f: Forwarder, log: seq<Event>, r: Reading, e: nat)
    requires TakesUpTo(f, log, r, e)
    ensures Batch(f, log, r).events == From(log[f.cursor..e], f.watermark)
    ensures Batch(f, log, r).needAccept <==>
              r.nextFails == Some(EVENTS_PER_SEND) || e == f.cursor + EVENTS_PER_SEND
    ensures AfterSend(f, log, r).cursor
         == if r.nextFails.Some? then f.cursor
            else if f.cursor + EVENTS_PER_SEND < |log| then f.cursor + EVENTS_PER_SEND
            else |log|
  {
    RenderedAre(f, log, r, e);
    NextEventsAre(f, log);
  }

  lemma SendKeepsMoving(s: System, r: Reading)
    requires Inv(s) && s.upDecoded == 0 && Enabled(s, Send(r)) && NextSafe(Send(r)) && AllRendered(s, Send(r))
    ensures Moving(DoSend(s, r))
  {
    SendDue(s, r);
    if r.nextFails.None? {
      WakeupReads(s.forwarder.value, s.log, r);
    }
  }

  lemma ServerReadsKeepsMoving(s: System)
    requires Inv(s) && Moving(s) && s.upDecoded == 0 && s.up != []
    ensures Moving(DoServerReads(s, 1))
  {
    if s.up[0].UpLog? {
      ServerReadsDue(s);
    }
  }

  lemma InsertKeepsMoving(s: System, i: nat, abort: bool)
    requires Inv(s) && Moving(s) && i < |s.work|
    ensures Moving(DoInsert(s, i, abort))
  {
    InsertDue(s, i, abort);
  }

  // Whatever the client handles leaves a wakeup behind: the return starts the sender, whose
  // subscription signal is set, and an acceptance sets the upload signal.
  lemma ClientReadsKeepsMoving(s: System, n: nat)
    requires Inv(s) && Enabled(s, ClientReads(n)) && UploadSafe(s, ClientReads(n))
    ensures Moving(DoClientReads(s, n))
  {
    match s.down[0]
    case DownAccept(_) => AcceptKeepsMoving(s, n);
    case DownReturn(_) => ReturnKeepsMoving(s, n);
    case DownConnect =>
  }

  lemma AcceptKeepsMoving(s: System, n: nat)
    requires Enabled(s, ClientReads(n)) && s.down[0].DownAccept? && !Resetting(s, Upload)
    ensures Moving(DoClientReads(s, n))
  {
  }

  lemma ReturnKeepsMoving(s: System, n: nat)
    requires Inv(s) && Enabled(s, ClientReads(n)) && s.down[0].DownReturn?
    ensures Moving(DoClientReads(s, n))
  {
    assert s.forwarder == Some(NewForwarder());
  }

  lemma AppendKeepsMoving(s: System, e: Event)
    requires SubscribeSafe(s, Append(e))
    ensures Moving(DoAppend(s, e))
  {
  }

  lemma ResetKeepsMoving(s: System)
    requires Moving(s) && Enabled(s, Reset)
    ensures Moving(DoReset(s))
  {
  }

  lemma ApplyKeepsMoving(s: System, a: Action)
    requires Inv(s) && Moving(s) && s.upDecoded == 0 && Enabled(s, a)
    requires SubscribeSafe(s, a) && UploadSafe(s, a) && Singly(a) && NextSafe(a) && AllRendered(s, a)
    ensures Moving(Apply(s, a)) && Apply(s, a).upDecoded == 0
  {
    match a
    case Append(e) => AppendKeepsMoving(s, e);
    case Connect =>
    case Disconnect =>
    case DropWork =>
    case Send(r) => SendKeepsMoving(s, r);
    case Reset => ResetKeepsMoving(s);
    case ServerReads(n) =>
      assert n == 1;
      ServerReadsKeepsMoving(s);
    case Insert(i, abort) => InsertKeepsMoving(s, i, abort);
    case ClientReads(n) => ClientReadsKeepsMoving(s, n);
  }

  // No wakeup is lost.
  predicate WakesUp(p: Policy) {
    p.subscribeSafe && p.uploadSafe && p.singly && p.nextSafe && p.rendered
  }

  lemma {:induction false} RunsKeepMoving(p: Policy, actions: seq<Action>)
    requires WakesUp(p) && RunFrom(p, Start(), actions).Some?
    ensures var s := RunFrom(p, Start(), actions).value; Moving(s) && s.upDecoded == 0
    decreases |actions|
  {
    if actions != [] {
      var front := actions[..|actions| - 1];
      RunsKeepMoving(p, front);
      RunsKeep(p, front);
      ApplyKeepsMoving(RunFrom(p, Start(), front).value, actions[|actions| - 1]);
    }
  }

  // Steps of the two programs, as opposed to new events and lost connections.
  predicate Internal(a: Action) {
    a.Send? || a.Reset? || a.ClientReads? || a.ServerReads? || a.Insert?
  }

  // Both programs wait, and nothing is on its way to either of them.
  predicate Resting(s: System) {
    && s.forwarder.Some? && s.forwarder.value.resetting.None? && Woken(s.forwarder.value).None?
    && s.upDecoded == |s.up| && s.downDecoded == |s.down| && s.work == []
  }

  // The step that is possible where the programs do not rest.
  function SomeStep(s: System): Action
    requires s.forwarder.Some?
  {
    if s.forwarder.value.resetting.Some? then Reset
    else if s.work != [] then Insert(0, false)
    else if s.upDecoded < |s.up| then ServerReads(1)
    else if s.downDecoded < |s.down| then ClientReads(1)
    else Send(READS_ALL)
  }

  // It is possible under every policy, so no policy keeps the programs from going on.
  lemma SomeStepIsAllowed(p: Policy, s: System)
    requires Inv(s) && s.forwarder.Some? && !Resting(s)
    ensures Internal(SomeStep(s)) && Allowed(p, s, SomeStep(s))
  {
  }

  // Resting says exactly that no step of the programs is possible.
  lemma RestingIsExact(s: System)
    requires Inv(s) && s.forwarder.Some?
    ensures Resting(s) <==> forall a | Internal(a) :: !Enabled(s, a)
  {
    if Resting(s) {
      forall a | Internal(a) ensures !Enabled(s, a) {
      }
    } else {
      SomeStepIsAllowed(Policy(true, true, true, true, true, true, true, true, true), s);
      assert Internal(SomeStep(s)) && Enabled(s, SomeStep(s));
    }
  }

  // The programs rest although an event is unread.
  predicate Stalled(s: System) {
    && s.forwarder.Some? && s.forwarder.value.started && Unread(s.forwarder.value, s.log) != []
    && Resting(s)
  }

  // Where no signal is lost, every read of the server completes at most one message and the reading of
  // events does not fail (or with the status 30, which is taken for a full batch): as long as an event
  // is unread, a wakeup is pending or will come, so the programs do not come to rest.
  lemma NeverStalled(p: Policy, actions: seq<Action>)
    requires WakesUp(p) && RunFrom(p, Start(), actions).Some?
    ensures Moving(RunFrom(p, Start(), actions).value) && !Stalled(RunFrom(p, Start(), actions).value)
  {
    RunsKeepMoving(p, actions);
  }

  // ---------------------------------------------------------------- draining a backlog

  // A started session with one wakeup pending and nothing under way.
  predicate Ready(s: System) {
    && Inv(s) && s.forwarder.Some? && s.forwarder.value.started && s.forwarder.value.resetting.None?
    && s.up == [] && s.down == [] && s.work == []
    && s.forwarder.value.subscribe != s.forwarder.value.upload
  }

  function Trues(k: nat): seq<bool> { seq(k, _ => true) }

  // At most one batch is under way, so no read completes more than one message. As long as there
  // is a wakeup to come, that batch asks for acceptance.
  predicate OneAtATime(s: System, tokens: nat) {
    && s.upDecoded == 0 && s.downDecoded == 0 && |s.up| <= 1 && AllLive(s.work)
    && (tokens == 1 ==> AskedIn(s.up) == |s.up|)
  }

  // Since a backlog of n events was ready, k full batches have been sent, and then perhaps a short one.
  predicate Counted(n: nat, earlier: seq<bool>, batches: seq<bool>, left: nat, tokens: nat, k: nat) {
    if tokens == 1 then batches == earlier + Trues(k) && left + EVENTS_PER_SEND * k == n
    else tokens == 0 && batches == earlier + Trues(k) + [false] && left == 0 && k == n / EVENTS_PER_SEND
  }

  predicate Drained(n: nat, earlier: seq<bool>, s: System, k: nat) {
    && Inv(s) && s.forwarder.Some? && s.forwarder.value.started
    && var f := s.forwarder.value;
       && OneAtATime(s, Tokens(s, f))
       && Counted(n, earlier, s.batches, |Unread(f, s.log)|, Tokens(s, f), k)
  }

  // A started session of which one message at a time is under way, with at most one token.
  predicate InDrain(s: System) {
    && s.forwarder.Some? && s.forwarder.value.started
    && Tokens(s, s.forwarder.value) <= 1 && OneAtATime(s, Tokens(s, s.forwarder.value))
  }

  // A wakeup that is pending is the only token, so nothing is under way.
  lemma NothingUnderWay(s: System)
    requires InDrain(s) && Enabled(s, Send(READS_ALL))
    ensures Tokens(s, s.forwarder.value) == 1 && Due(s) == 0 && s.up == []
  {
    AllUndecoded(s.up);
  }

  // The one signal that is set is the one that will be reset.
  lemma SignalSpent(s: System, r: Reading)
    requires InDrain(s) && Enabled(s, Send(r))
    ensures Tokens(DoSend(s, r), AfterSend(s.forwarder.value, s.log, r)) == Due(DoSend(s, r))
  {
    NothingUnderWay(s);
  }

  lemma SendFillsChannel(s: System, r: Reading)
    requires InDrain(s) && Enabled(s, Send(r))
    ensures var t, asks := DoSend(s, r), One(Batch(s.forwarder.value, s.log, r).needAccept);
            Due(t) == asks && AskedIn(t.up) == asks && |t.up| == 1 && OneAtATime(t, asks)
  {
    NothingUnderWay(s);
    SendDue(s, r);
    var m := Batch(s.forwarder.value, s.log, r);
    AskedOne(m);
    assert s.up + [m] == [m];
  }

  // A send spends the only token, and makes another if its batch is full.
  lemma SendTokens(s: System, r: Reading)
    requires InDrain(s) && Enabled(s, Send(r)) && s.forwarder.value.cursor <= |s.log|
    requires ReadsWell(s.forwarder.value, s.log, r)
    ensures var f, t := s.forwarder.value, DoSend(s, r);
            var full := |Unread(f, s.log)| >= EVENTS_PER_SEND;
            && Tokens(t, t.forwarder.value) == One(full)
            && AskedIn(t.up) == One(full) && |t.up| == 1 && OneAtATime(t, One(full))
            && t.batches == s.batches + [full]
            && |Unread(t.forwarder.value, t.log)| == if full then |Unread(f, s.log)| - EVENTS_PER_SEND else 0
  {
    SignalSpent(s, r);
    SendFillsChannel(s, r);
    WakeupReads(s.forwarder.value, s.log, r);
  }

  lemma CountSend(n: nat, earlier: seq<bool>, batches: seq<bool>, left: nat, k: nat)
    requires Counted(n, earlier, batches, left, 1, k)
    ensures left >= EVENTS_PER_SEND ==> Counted(n, earlier, batches + [true], left - EVENTS_PER_SEND, 1, k + 1)
    ensures left < EVENTS_PER_SEND ==> Counted(n, earlier, batches + [false], 0, 0, k)
  {
    assert Trues(k + 1) == Trues(k) + [true];
    assert earlier + Trues(k) + [true] == earlier + (Trues(k) + [true]);
  }

  lemma SendDrains(n: nat, earlier: seq<bool>, s: System, k: nat, r: Reading)
    requires Drained(n, earlier, s, k) && Enabled(s, Send(r)) && ReadsWell(s.forwarder.value, s.log, r)
    ensures Drained(n, earlier, DoSend(s, r), if Batch(s.forwarder.value, s.log, r).needAccept then k + 1 else k)
  {
    SendKeeps(s, r);
    NothingUnderWay(s);
    SendTokens(s, r);
    WakeupReads(s.forwarder.value, s.log, r);
    CountSend(n, earlier, s.batches, |Unread(s.forwarder.value, s.log)|, k);
  }

  // A step that keeps the tokens and reads no events.
  predicate Advances(s: System, t: System) {
    && s.forwarder.Some? && t.forwarder.Some? && t.forwarder.value.started
    && t.forwarder.value.cursor == s.forwarder.value.cursor && t.log == s.log && t.batches == s.batches
    && Tokens(t, t.forwarder.value) == Tokens(s, s.forwarder.value)
    && OneAtATime(t, Tokens(t, t.forwarder.value))
  }

  lemma SameTokens(n: nat, earlier: seq<bool>, s: System, k: nat, t: System)
    requires Drained(n, earlier, s, k) && Inv(t) && Advances(s, t)
    ensures Drained(n, earlier, t, k)
  {
  }

  lemma ServerReadsAdvances(s: System)
    requires InDrain(s) && s.up != [] && s.up[0].UpLog?
    ensures Advances(s, DoServerReads(s, 1))
  {
    ServerReadsDue(s);
    assert s.up[1..] == [];
  }

  lemma InsertAdvances(s: System, i: nat, abort: bool)
    requires InDrain(s) && i < |s.work|
    ensures Advances(s, DoInsert(s, i, abort))
  {
    InsertDue(s, i, abort);
  }

  lemma ClientReadsAdvances(s: System)
    requires InDrain(s) && s.down != [] && s.down[0].DownAccept? && !Resetting(s, Upload)
    ensures Advances(s, DoClientReads(s, 1))
  {
    ClientReadsDue(s, 1);
  }

  lemma ResetAdvances(s: System)
    requires InDrain(s) && Enabled(s, Reset)
    ensures Advances(s, DoReset(s))
  {
  }

  // With one message at a time, a read completes that message and handles it.
  lemma ReadsOne(s: System, a: Action)
    requires Inv(s) && InDrain(s) && Enabled(s, a)
    ensures a.ServerReads? ==> a.n == 1 && s.up[0].UpLog?
    ensures a.ClientReads? ==> a.n == 1 && s.down[0].DownAccept?
  {
    if a.ClientReads? {
      assert |s.down| <= Due(s) <= 1;
    }
  }

  lemma StepAdvances(s: System, a: Action)
    requires Inv(s) && InDrain(s) && Enabled(s, a) && UploadSafe(s, a) && Internal(a) && !a.Send?
    ensures Advances(s, Apply(s, a))
  {
    ReadsOne(s, a);
    match a
    case ServerReads(_) => ServerReadsAdvances(s);
    case Insert(i, abort) => InsertAdvances(s, i, abort);
    case ClientReads(_) => ClientReadsAdvances(s);
    case Reset => ResetAdvances(s);
  }

  lemma StepDrains(n: nat, earlier: seq<bool>, s: System, k: nat, a: Action)
    requires Drained(n, earlier, s, k) && Enabled(s, a) && UploadSafe(s, a) && Internal(a) && !a.Send?
    ensures Drained(n, earlier, Apply(s, a), k)
  {
    ApplyKeeps(s, a);
    StepAdvances(s, a);
    SameTokens(n, earlier, s, k, Apply(s, a));
  }

  predicate Drains(p: Policy) { p.uploadSafe && p.nextSafe && p.noThirty && p.rendered }

  lemma {:induction false} RunsDrain(p: Policy, s: System, actions: seq<Action>) returns (k: nat)
    requires Drains(p) && Ready(s) && RunFrom(p, s, actions).Some?
    requires forall i :: 0 <= i < |actions| ==> Internal(actions[i])
    ensures Drained(|Unread(s.forwarder.value, s.log)|, s.batches, RunFrom(p, s, actions).value, k)
    decreases |actions|
  {
    var n := |Unread(s.forwarder.value, s.log)|;
    if actions == [] {
      k := 0;
      assert s.batches + Trues(0) == s.batches;
    } else {
      var front, a := actions[..|actions| - 1], actions[|actions| - 1];
      k := RunsDrain(p, s, front);
      var t := RunFrom(p, s, front).value;
      if a.Send? {
        SendDrains(n, s.batches, t, k, a.r);
        k := if Batch(t.forwarder.value, t.log, a.r).needAccept then k + 1 else k;
      } else {
        StepDrains(n, s.batches, t, k, a);
      }
    }
  }

  // However the two programs are scheduled and their reads are cut, a ready backlog of n events
  // with no new ones is sent in exactly n / 30 full batches that ask for acceptance and one short,
  // perhaps empty, batch that does not, if only no acceptance is lost and no reading fails.
  lemma DrainCount(p: Policy, s: System, actions: seq<Action>)
    requires Drains(p) && Ready(s) && RunFrom(p, s, actions).Some?
    requires forall i :: 0 <= i < |actions| ==> Internal(actions[i])
    requires Resting(RunFrom(p, s, actions).value)
    ensures var n := |Unread(s.forwarder.value, s.log)|;
            var t := RunFrom(p, s, actions).value;
            t.batches == s.batches + Trues(n / EVENTS_PER_SEND) + [false] && Unread(t.forwarder.value, t.log) == []
  {
    var k := RunsDrain(p, s, actions);
  }
}
