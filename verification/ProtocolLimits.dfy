// Which assumptions about a run the guarantees need: for each of them, the runs that have it are
// exactly the ones in which it is assumed.
module ProtocolLimits {
  import opened Bytes
  import opened Messages
  import opened EventLog
  import opened Protocol
  import opened ProtocolStorage
  import opened ProtocolUnique
  import opened ProtocolProgress
  import opened ProtocolEnding

  function Record(rid: nat): Event { Event("", "", "", "", Info, 4, rid) }

  // The actions lead to s under the policy.
  ghost predicate Reaches(p: Policy, actions: seq<Action>, s: System) {
    Takes(p, Start(), actions, s)
  }

  lemma RunOf(p: Policy, actions: seq<Action>, s: System)
    ensures Reaches(p, actions, s) <==> RunFrom(p, Start(), actions) == Some(s)
  {
    RunTakes(p, Start(), actions, s);
  }

  lemma Then(p: Policy, actions: seq<Action>, s: System, a: Action) returns (more: seq<Action>)
    requires Reaches(p, actions, s) && Allowed(p, s, a)
    ensures Reaches(p, more, Apply(s, a))
  {
    more := actions + [a];
    RunOf(p, actions, s);
    assert more[..|more| - 1] == actions;
  }

  // Events with the ids from 1 to n.
  function Records(n: nat): (es: seq<Event>)
    ensures |es| == n && Increasing(es)
  {
    seq(n, i requires 0 <= i => Record(i + 1))
  }

  // The state once the events 1 to n have been logged.
  function Grown(s: System, n: nat): System {
    s.(log := Records(n),
       forwarder := if s.forwarder.Some? then Some(s.forwarder.value.(subscribe := true)) else None)
  }

  lemma {:induction false} Grow(p: Policy, actions: seq<Action>, s: System, n: nat) returns (more: seq<Action>)
    requires Reaches(p, actions, s) && s.log == [] && !Resetting(s, Subscribe) && 0 < n < RID_LIMIT
    ensures Reaches(p, more, Grown(s, n))
    decreases n
  {
    assert Records(n) == Records(n - 1) + [Record(n)];
    if n == 1 {
      more := Then(p, actions, s, Append(Record(1)));
    } else {
      more := Grow(p, actions, s, n - 1);
      more := Then(p, more, Grown(s, n - 1), Append(Record(n)));
    }
  }

  // The state once a session has been given its watermark.
  function Greeted(s: System): System {
    var b := MaxRid(s.rows) + 1;
    DoConnect(s).(forwarder := Some(Forwarder(b, true, false, true, 0, None)), up := [], lid := b - 1,
                  base := Some(b), before := s.rows)
  }

  // The state in which the query is under way.
  function Asking(s: System): System { DoConnect(s).(up := [UpQuery]) }

  lemma Ask(p: Policy, actions: seq<Action>, s: System) returns (more: seq<Action>)
    requires Reaches(p, actions, s) && s.forwarder.None?
    ensures Reaches(p, more, Asking(s))
  {
    var s1 := DoConnect(s);
    more := Then(p, actions, s, Action.Connect);
    var s2 := s1.(up := [], down := [DownConnect]);
    more := Then(p, more, s1, ServerReads(1));
    assert DoServerReads(s1, 1) == s2;
    more := Then(p, more, s2, ClientReads(1));
    assert DoClientReads(s2, 1) == Asking(s);
  }

  lemma Answer(p: Policy, actions: seq<Action>, s: System) returns (more: seq<Action>)
    requires Reaches(p, actions, Asking(s)) && (p.calm ==> s.work == [])
    ensures Reaches(p, more, Greeted(s))
  {
    var b := MaxRid(s.rows) + 1;
    var s1 := Asking(s);
    more := Then(p, actions, s1, ServerReads(1));
    var s2 := s1.(up := [], down := [DownReturn(b)], lid := b - 1, base := Some(b), before := s.rows);
    assert DoServerReads(s1, 1) == s2;
    more := Then(p, more, s2, ClientReads(1));
    assert DoClientReads(s2, 1) == Greeted(s);
  }

  lemma Greet(p: Policy, actions: seq<Action>, s: System) returns (more: seq<Action>)
    requires Reaches(p, actions, s) && s.forwarder.None? && (p.calm ==> s.work == [])
    ensures Reaches(p, more, Greeted(s))
  {
    more := Ask(p, actions, s);
    more := Answer(p, more, s);
  }

  // ---------------------------------------------------------------- one batch

  // A woken sender whose next batch is es, all of which its watermark lets through.
  predicate HasNext(s: System, es: seq<Event>) {
    && s.forwarder.Some?
    && var f := s.forwarder.value;
       && f.started && f.resetting.None? && Woken(f).Some?
       && NextEvents(f, s.log) == es && AtLeast(es, f.watermark)
  }

  function Full(es: seq<Event>): bool { |es| == EVENTS_PER_SEND }

  function Sent(s: System, es: seq<Event>): System
    requires HasNext(s, es)
  {
    var f := s.forwarder.value;
    s.(forwarder := Some(f.(cursor := f.cursor + |es|, resetting := Woken(f))),
       up := s.up + [UpLog(es, Full(es))], sent := s.sent + es, batches := s.batches + [Full(es)])
  }

  lemma SendNext(p: Policy, actions: seq<Action>, s: System, es: seq<Event>) returns (more: seq<Action>)
    requires Reaches(p, actions, s) && HasNext(s, es)
    ensures Reaches(p, more, Sent(s, es))
  {
    FromAll(es, s.forwarder.value.watermark);
    more := Then(p, actions, s, Send(READS_ALL));
    assert DoSend(s, READS_ALL) == Sent(s, es);
  }

  // The server handles the one batch that is under way.
  function Received(s: System, es: seq<Event>, asks: bool): System {
    s.(up := [], lid := if es == [] then s.lid else es[|es| - 1].rid, work := s.work + [Work(es, asks, true)])
  }

  lemma Receive(p: Policy, actions: seq<Action>, s: System, es: seq<Event>, asks: bool) returns (more: seq<Action>)
    requires Reaches(p, actions, s) && s.up == [UpLog(es, asks)] && s.upDecoded == 0
    ensures Reaches(p, more, Received(s, es, asks))
  {
    more := Then(p, actions, s, ServerReads(1));
    assert DoServerReads(s, 1) == Received(s, es, asks);
  }

  // The one insertion that is queued runs.
  function Inserted(s: System, w: Work, abort: bool): System {
    s.(work := [], rows := if abort then s.rows else s.rows + w.events,
       down := if w.needAccept && w.live then s.down + [DownAccept(s.lid + 1)] else s.down)
  }

  lemma InsertOnly(p: Policy, actions: seq<Action>, s: System, w: Work, abort: bool) returns (more: seq<Action>)
    requires Reaches(p, actions, s) && s.work == [w] && (p.committed ==> !abort)
    ensures Reaches(p, more, Inserted(s, w, abort))
  {
    more := Then(p, actions, s, Insert(0, abort));
    assert s.work[..0] + s.work[1..] == [];
    assert DoInsert(s, 0, abort) == Inserted(s, w, abort);
  }

  // The client handles the one acceptance that is under way.
  function Accepted(s: System, v: nat): System
    requires s.forwarder.Some?
  {
    s.(down := [], forwarder := Some(s.forwarder.value.(watermark := v, upload := true)))
  }

  lemma Accept(p: Policy, actions: seq<Action>, s: System, v: nat) returns (more: seq<Action>)
    requires Reaches(p, actions, s) && s.forwarder.Some? && s.down == [DownAccept(v)] && s.downDecoded == 0
    requires p.uploadSafe ==> !Resetting(s, Upload)
    ensures Reaches(p, more, Accepted(s, v))
  {
    more := Then(p, actions, s, ClientReads(1));
    assert DoClientReads(s, 1) == Accepted(s, v);
  }

  // A batch is sent, the signal reset, and the batch handled.
  function Shipped(s: System, es: seq<Event>): System
    requires HasNext(s, es)
  {
    Received(DoReset(Sent(s, es)), es, Full(es))
  }

  lemma Ship(p: Policy, actions: seq<Action>, s: System, es: seq<Event>) returns (more: seq<Action>)
    requires Reaches(p, actions, s) && HasNext(s, es) && s.up == [] && s.upDecoded == 0
    ensures Reaches(p, more, Shipped(s, es))
  {
    more := SendNext(p, actions, s, es);
    more := Then(p, more, Sent(s, es), Reset);
    more := Receive(p, more, DoReset(Sent(s, es)), es, Full(es));
  }

  // A session with nothing under way.
  predicate Quiet(s: System, log: seq<Event>, rows: seq<Event>, work: seq<Work>, f: Forwarder) {
    && s.log == log && s.rows == rows && s.work == work && s.forwarder == Some(f)
    && s.up == [] && s.upDecoded == 0 && s.down == [] && s.downDecoded == 0
  }

  // What the sender is like once it has sent n events under a watermark.
  function Sender(watermark: nat, subscribe: bool, n: nat): Forwarder {
    Forwarder(watermark, subscribe, false, true, n, None)
  }

  // A greeted session with n events in the log.
  lemma Begin(p: Policy, n: nat) returns (more: seq<Action>, s: System)
    requires 0 < n < RID_LIMIT
    ensures Reaches(p, more, s) && Quiet(s, Records(n), [], [], Sender(1, true, 0))
  {
    more := Grow(p, [], Start(), n);
    more := Greet(p, more, Grown(Start(), n));
    s := Greeted(Grown(Start(), n));
  }

  lemma LogOne(p: Policy, actions: seq<Action>, s: System, log: seq<Event>, rows: seq<Event>, work: seq<Work>,
               f: Forwarder, e: Event) returns (more: seq<Action>, t: System)
    requires Reaches(p, actions, s) && Quiet(s, log, rows, work, f) && f.resetting.None? && Enabled(s, Append(e))
    ensures Reaches(p, more, t) && Quiet(t, log + [e], rows, work, f.(subscribe := true))
  {
    more := Then(p, actions, s, Append(e));
    t := DoAppend(s, e);
  }

  // The sender's only unread event is shipped.
  lemma ShipOne(p: Policy, actions: seq<Action>, s: System, log: seq<Event>, rows: seq<Event>, work: seq<Work>,
                w: nat, n: nat, e: Event) returns (more: seq<Action>, t: System)
    requires Reaches(p, actions, s) && Quiet(s, log, rows, work, Sender(w, true, n))
    requires w <= e.rid && n <= |log| && log[n..] == [e]
    ensures Reaches(p, more, t) && Quiet(t, log, rows, work + [Work([e], false, true)], Sender(w, false, n + 1))
  {
    more := Ship(p, actions, s, [e]);
    t := Shipped(s, [e]);
  }

  lemma InsertOne(p: Policy, actions: seq<Action>, s: System, log: seq<Event>, rows: seq<Event>, work: seq<Work>,
                  f: Forwarder, i: nat, abort: bool) returns (more: seq<Action>, t: System)
    requires Reaches(p, actions, s) && Quiet(s, log, rows, work, f) && i < |work| && !work[i].needAccept
    requires (p.ordered ==> i == 0) && (p.committed ==> !abort)
    ensures Reaches(p, more, t)
    ensures Quiet(t, log, if abort then rows else rows + work[i].events, work[..i] + work[i + 1..], f)
  {
    more := Then(p, actions, s, Insert(i, abort));
    t := DoInsert(s, i, abort);
  }

  // Reading goes wrong, so that nothing is sent and n events are passed over.
  lemma ShipNothing(p: Policy, actions: seq<Action>, s: System, log: seq<Event>, rows: seq<Event>,
                    w: nat, c: nat, r: Reading, n: nat) returns (more: seq<Action>, t: System)
    requires Reaches(p, actions, s) && Quiet(s, log, rows, [], Sender(w, true, c)) && c + n <= |log|
    requires |Delivered(Sender(w, true, c), log, r)| == n && Rendered(Delivered(Sender(w, true, c), log, r), r) == []
    requires r.nextFails != Some(EVENTS_PER_SEND)
    requires (p.nextSafe ==> r.nextFails.None?) && (p.rendered ==> n == 0)
    ensures Reaches(p, more, t) && Quiet(t, log, rows, [], Sender(w, false, c + n))
  {
    more := Then(p, actions, s, Send(r));
    var s1 := DoSend(s, r);
    assert s1.up == [UpLog([], false)];
    more := Then(p, more, s1, Reset);
    var s2 := DoReset(s1);
    more := Receive(p, more, s2, [], false);
    var s3, work := Received(s2, [], false), Work([], false, true);
    assert s3.work == [work];
    more := InsertOnly(p, more, s3, work, false);
    t := Inserted(s3, work, false);
    assert rows + [] == rows;
  }

  // ---------------------------------------------------------------- runs that stall

  // The programs rest, and some events of the log are not stored, or some are stored twice.
  predicate Incomplete(s: System) {
    Resting(s) && s.rows != From(s.log, 1)
  }

  lemma OtherRows(s: System)
    requires Resting(s) && AtLeast(s.log, 1) && s.rows != s.log
    ensures Incomplete(s)
  {
    FromAll(s.log, 1);
  }

  // An event is logged between a send and the reset that follows it.
  lemma LostWakeup(p: Policy) returns (more: seq<Action>, s: System)
    requires !p.subscribeSafe
    ensures Reaches(p, more, s) && Stalled(s) && Incomplete(s)
  {
    var s0, e1, e2;
    e1, e2 := Record(1), Record(2);
    more, s0 := Begin(p, 1);
    assert Records(1)[0..] == [e1];
    more := SendNext(p, more, s0, [e1]);
    more, s := RaiseThenReset(p, more, Sent(s0, [e1]), e1, e2);
    var w := Work([e1], false, true);
    more := Receive(p, more, s, [e1], false);
    more := InsertOnly(p, more, Received(s, [e1], false), w, false);
    s := Inserted(Received(s, [e1], false), w, false);
    assert s.log[1..] == [e2] && |s.rows| == 1;
    OtherRows(s);
  }

  lemma RaiseThenReset(p: Policy, actions: seq<Action>, s: System, e1: Event, e2: Event)
    returns (more: seq<Action>, t: System)
    requires !p.subscribeSafe && Reaches(p, actions, s) && s.log == [e1] && e1.rid < e2.rid < RID_LIMIT
    requires s.forwarder == Some(Sender(1, true, 1).(resetting := Some(Subscribe)))
    ensures Reaches(p, more, t) && t == s.(log := [e1, e2], forwarder := Some(Sender(1, false, 1)))
  {
    more := Then(p, actions, s, Append(e2));
    more := Then(p, more, DoAppend(s, e2), Reset);
    t := DoReset(DoAppend(s, e2));
  }

  // The part of the log that a full batch starting at c holds.
  function Thirty(n: nat, c: nat): seq<Event>
    requires c + EVENTS_PER_SEND <= n
  {
    Records(n)[c..c + EVENTS_PER_SEND]
  }

  lemma ThirtyIsNext(s: System, f: Forwarder, n: nat, c: nat)
    requires s.forwarder == Some(f) && f.started && f.resetting.None? && Woken(f).Some?
    requires s.log == Records(n) && f.cursor == c && c + EVENTS_PER_SEND < n && f.watermark <= c + 1
    ensures HasNext(s, Thirty(n, c)) && Full(Thirty(n, c))
    ensures Thirty(n, c)[EVENTS_PER_SEND - 1].rid == c + EVENTS_PER_SEND
  {
    var u := Unread(f, s.log);
    assert u[..EVENTS_PER_SEND] == Thirty(n, c);
  }

  // A full batch has been sent and stored, and the client has handled its acceptance.
  lemma FirstBatch(p: Policy) returns (more: seq<Action>, s: System)
    ensures Reaches(p, more, s) && Quiet(s, Records(61), Thirty(61, 0), [], Sender(31, false, 30).(upload := true))
  {
    var s0, es;
    es := Thirty(61, 0);
    more, s0 := Begin(p, 61);
    ThirtyIsNext(s0, s0.forwarder.value, 61, 0);
    more := Ship(p, more, s0, es);
    var w := Work(es, true, true);
    var s1 := Shipped(s0, es);
    more := InsertOnly(p, more, s1, w, false);
    var s2 := Inserted(s1, w, false);
    more := Accept(p, more, s2, 31);
    s := Accepted(s2, 31);
  }

  // The acceptance of a batch is handled before the signal that sent the batch is reset.
  lemma LostAcceptance(p: Policy) returns (more: seq<Action>, s: System)
    requires !p.uploadSafe
    ensures Reaches(p, more, s) && Stalled(s) && Incomplete(s)
  {
    more, s := AcceptedEarly(p);
    more := Then(p, more, s, Reset);
    s := DoReset(s);
    OtherRows(s);
  }

  lemma AcceptedEarly(p: Policy) returns (more: seq<Action>, s: System)
    requires !p.uploadSafe
    ensures Reaches(p, more, s) && s.log == Records(61) && |s.rows| == 60
    ensures s.forwarder == Some(Forwarder(61, false, true, true, 60, Some(Upload)))
    ensures s.up == [] && s.down == [] && s.upDecoded == 0 && s.downDecoded == 0 && s.work == []
  {
    var es := Thirty(61, 30);
    more, s := FirstBatch(p);
    ThirtyIsNext(s, s.forwarder.value, 61, 30);
    more := SendNext(p, more, s, es);
    s := Sent(s, es);
    more := Receive(p, more, s, es, true);
    s := Received(s, es, true);
    more := InsertOnly(p, more, s, Work(es, true, true), false);
    s := Inserted(s, Work(es, true, true), false);
    assert s.down == [DownAccept(61)];
    more := Accept(p, more, s, 61);
    s := Accepted(s, 61);
  }

  // A short batch has been sent, and then 31 events were logged.
  lemma ShortThenGrown(p: Policy) returns (more: seq<Action>, s: System)
    ensures Reaches(p, more, s) && s.log == Records(31) && s.forwarder == Some(Sender(1, true, 0))
    ensures s.up == [UpLog([], false)] && s.upDecoded == 0 && s.down == [] && s.downDecoded == 0
    ensures s.work == [] && s.rows == []
  {
    var s0 := Greeted(Start());
    more := Greet(p, [], Start());
    more := SendNext(p, more, s0, []);
    more := Then(p, more, Sent(s0, []), Reset);
    more := Grow(p, more, DoReset(Sent(s0, [])), 31);
    s := Grown(DoReset(Sent(s0, [])), 31);
  }

  // A short batch and then a full one are under way; the server has read neither.
  lemma ShortThenFull(p: Policy) returns (more: seq<Action>, s: System)
    ensures Reaches(p, more, s) && s.log == Records(31) && s.forwarder == Some(Sender(1, false, 30))
    ensures s.up == [UpLog([], false), UpLog(Thirty(31, 0), true)] && s.upDecoded == 0
    ensures s.down == [] && s.downDecoded == 0 && s.work == [] && s.rows == []
  {
    var s0, es;
    es := Thirty(31, 0);
    more, s0 := ShortThenGrown(p);
    ThirtyIsNext(s0, s0.forwarder.value, 31, 0);
    more := SendNext(p, more, s0, es);
    more := Then(p, more, Sent(s0, es), Reset);
    s := DoReset(Sent(s0, es));
  }

  // Both arrive in one read. The server handles the short one, and nothing makes it handle the
  // full one, which asked for acceptance.
  lemma StuckBatch(p: Policy) returns (more: seq<Action>, s: System)
    requires !p.singly
    ensures Reaches(p, more, s) && Stalled(s) && Incomplete(s)
  {
    var s0;
    more, s0 := ShortThenFull(p);
    more := Then(p, more, s0, ServerReads(2));
    var s1 := DoServerReads(s0, 2);
    var w := Work([], false, true);
    assert s1.work == [w];
    more := InsertOnly(p, more, s1, w, false);
    s := Inserted(s1, w, false);
    assert s.rows == [];
    OtherRows(s);
  }

  // The first of 31 events cannot be rendered: 30 events are passed over, no acceptance is asked for,
  // and the last event stays unread.
  lemma UnrenderedStalls(p: Policy) returns (more: seq<Action>, s: System)
    requires !p.rendered
    ensures Reaches(p, more, s) && Stalled(s) && Incomplete(s)
  {
    var r := Reading(None, Some(0));
    more, s := Begin(p, 31);
    var f := Sender(1, true, 0);
    assert |Delivered(f, Records(31), r)| == 30;
    more, s := ShipNothing(p, more, s, Records(31), [], 1, 0, r, 30);
    assert |Unread(s.forwarder.value, s.log)| == 1;
    OtherRows(s);
  }

  // EvtNext fails, and the one event there is stays unread.
  lemma FailedReadStalls(p: Policy, status: nat) returns (more: seq<Action>, s: System)
    requires !p.nextSafe && status != EVENTS_PER_SEND
    ensures Reaches(p, more, s) && Stalled(s) && Incomplete(s)
  {
    more, s := Begin(p, 1);
    more, s := ShipNothing(p, more, s, Records(1), [], 1, 0, Reading(Some(status), None), 0);
    assert |Unread(s.forwarder.value, s.log)| == 1;
    OtherRows(s);
  }

  // ---------------------------------------------------------------- runs that store wrongly

  // The first of two transactions aborts.
  lemma AbortLeavesGap(p: Policy) returns (more: seq<Action>, s: System)
    requires !p.committed
    ensures Reaches(p, more, s) && s.log == [Record(1), Record(2)] && s.rows == [Record(2)] && Resting(s)
  {
    var e1, e2 := Record(1), Record(2);
    var w1, w2 := Work([e1], false, true), Work([e2], false, true);
    assert Records(1) == [e1] && [e1][0..] == [e1] && [e1, e2][1..] == [e2];
    more, s := Begin(p, 1);
    more, s := ShipOne(p, more, s, [e1], [], [], 1, 0, e1);
    more, s := InsertOne(p, more, s, [e1], [], [w1], Sender(1, false, 1), 0, true);
    more, s := LogOne(p, more, s, [e1], [], [], Sender(1, false, 1), e2);
    more, s := ShipOne(p, more, s, [e1, e2], [], [], 1, 1, e2);
    more, s := InsertOne(p, more, s, [e1, e2], [], [w2], Sender(1, false, 2), 0, false);
  }

  // The second of two insertions overtakes the first.
  lemma OvertakingLeavesGap(p: Policy) returns (more: seq<Action>, s: System)
    requires !p.ordered
    ensures Reaches(p, more, s) && s.log == [Record(1), Record(2)] && s.rows == [Record(2)]
    ensures Quiet(s, [Record(1), Record(2)], [Record(2)], [Work([Record(1)], false, true)], Sender(1, false, 2))
  {
    var e1, e2 := Record(1), Record(2);
    var w1, w2 := Work([e1], false, true), Work([e2], false, true);
    assert Records(1) == [e1] && [e1][0..] == [e1] && [e1, e2][1..] == [e2];
    more, s := Begin(p, 1);
    more, s := ShipOne(p, more, s, [e1], [], [], 1, 0, e1);
    more, s := LogOne(p, more, s, [e1], [], [w1], Sender(1, false, 1), e2);
    more, s := ShipOne(p, more, s, [e1, e2], [], [w1], 1, 1, e2);
    more, s := InsertOne(p, more, s, [e1, e2], [], [w1, w2], Sender(1, false, 2), 1, false);
  }

  // The overtaken one runs in the end, but the order of the rows is not that of the log.
  lemma OvertakingSwaps(p: Policy) returns (more: seq<Action>, s: System)
    requires !p.ordered
    ensures Reaches(p, more, s) && Incomplete(s)
  {
    var e1, e2 := Record(1), Record(2);
    more, s := OvertakingLeavesGap(p);
    more, s := InsertOne(p, more, s, [e1, e2], [e2], [Work([e1], false, true)], Sender(1, false, 2), 0, false);
    assert s.rows[0] != s.log[0];
    OtherRows(s);
  }

  // An event that cannot be rendered is passed over, and the next one is stored.
  lemma UnrenderedLeavesGap(p: Policy) returns (more: seq<Action>, s: System)
    requires !p.rendered
    ensures Reaches(p, more, s) && s.log == [Record(1), Record(2)] && s.rows == [Record(2)]
  {
    var e1, e2, r := Record(1), Record(2), Reading(None, Some(0));
    assert Records(1) == [e1] && [e1][0..] == [e1] && [e1, e2][1..] == [e2];
    more, s := Begin(p, 1);
    more, s := ShipNothing(p, more, s, [e1], [], 1, 0, r, 1);
    more, s := LogOne(p, more, s, [e1], [], [], Sender(1, false, 1), e2);
    more, s := ShipOne(p, more, s, [e1, e2], [], [], 1, 1, e2);
    more, s := InsertOne(p, more, s, [e1, e2], [], [Work([e2], false, true)], Sender(1, false, 2), 0, false);
  }

  lemma OrphanOne(w: Work)
    ensures Orphans([w]) == [Orphan(w)]
  {
    assert [w][..0] == [] && Orphans([]) == [];
  }

  // A session is lost while the insertion of its batch is queued.
  lemma LostSession(p: Policy) returns (more: seq<Action>, s: System)
    ensures Reaches(p, more, s) && s.forwarder.None? && s.log == [Record(1)] && s.rows == []
    ensures s.work == [Work([Record(1)], false, false)]
  {
    var e := Record(1);
    assert Records(1) == [e] && [e][0..] == [e];
    more, s := Begin(p, 1);
    more, s := ShipOne(p, more, s, [e], [], [], 1, 0, e);
    OrphanOne(s.work[0]);
    more := Then(p, more, s, Disconnect);
    s := DoDisconnect(s);
  }

  // An insertion of a lost session runs after the next session has been given its watermark.
  lemma LateInsertion(p: Policy) returns (more: seq<Action>, s: System)
    requires !p.calm
    ensures Reaches(p, more, s) && s.log == [Record(1)] && s.rows == [Record(1), Record(1)] && Resting(s)
  {
    var e := Record(1);
    var orphan, w := Work([e], false, false), Work([e], false, true);
    assert [e][0..] == [e];
    more, s := LostSession(p);
    more := Greet(p, more, s);
    s := Greeted(s);
    more, s := InsertOne(p, more, s, [e], [], [orphan], Sender(1, true, 0), 0, false);
    more, s := ShipOne(p, more, s, [e], [e], [], 1, 0, e);
    more, s := InsertOne(p, more, s, [e], [e], [w], Sender(1, false, 1), 0, false);
  }

  // ---------------------------------------------------------------- exact conditions

  ghost predicate AlwaysDistinct(p: Policy) {
    forall actions: seq<Action>, s: System :: Reaches(p, actions, s) ==> Distinct(s.rows)
  }

  ghost predicate AlwaysExact(p: Policy) {
    forall actions: seq<Action>, s: System :: Reaches(p, actions, s) ==> ExactlyUpTo(s.rows, s.log)
  }

  ghost predicate AlwaysMoving(p: Policy) {
    forall actions: seq<Action>, s: System :: Reaches(p, actions, s) ==> !Stalled(s)
  }

  ghost predicate AlwaysComplete(p: Policy) {
    forall actions: seq<Action>, s: System :: Reaches(p, actions, s) && Resting(s) ==> s.rows == From(s.log, 1)
  }

  // No id is stored twice in any run, if and only if queries wait for the insertions of earlier
  // sessions.
  lemma DistinctIffCalm(p: Policy)
    ensures AlwaysDistinct(p) <==> p.calm
  {
    if p.calm {
      forall actions: seq<Action>, s: System | Reaches(p, actions, s) ensures Distinct(s.rows) {
        RunOf(p, actions, s);
        NeverTwice(p, actions);
      }
    } else {
      var actions, s := LateInsertion(p);
      assert s.rows[0].rid == s.rows[1].rid;
    }
  }

  lemma GapIsNotExact(rows: seq<Event>, log: seq<Event>)
    requires log == [Record(1), Record(2)] && rows == [Record(2)]
    ensures !ExactlyUpTo(rows, log)
  {
    assert [Record(2)][..0] == [] && MaxRid(rows) == 2;
    assert log[0] == Record(1) && Record(1) in log && Record(1) !in rows;
  }

  lemma TwiceIsNotExact(rows: seq<Event>, log: seq<Event>)
    requires rows == [Record(1), Record(1)]
    ensures !ExactlyUpTo(rows, log)
  {
    assert rows[0].rid == rows[1].rid;
  }

  lemma StoresAllIsExact(p: Policy)
    requires StoresAll(p)
    ensures AlwaysExact(p)
  {
    forall actions: seq<Action>, s: System | Reaches(p, actions, s) ensures ExactlyUpTo(s.rows, s.log) {
      RunOf(p, actions, s);
      ExactlyOnce(p, actions);
    }
  }

  // The rows have no gap in any run, if and only if moreover no insertion overtakes another, none
  // aborts, and every event is rendered.
  lemma ExactIffStoresAll(p: Policy)
    ensures AlwaysExact(p) <==> p.calm && p.ordered && p.committed && p.rendered
  {
    if StoresAll(p) {
      StoresAllIsExact(p);
    } else {
      var actions, s := InexactRun(p);
    }
  }

  lemma InexactRun(p: Policy) returns (more: seq<Action>, s: System)
    requires !StoresAll(p)
    ensures Reaches(p, more, s) && !ExactlyUpTo(s.rows, s.log)
  {
    if !p.calm {
      more, s := LateInsertion(p);
      TwiceIsNotExact(s.rows, s.log);
    } else {
      more, s := GapRun(p);
      GapIsNotExact(s.rows, s.log);
    }
  }

  lemma GapRun(p: Policy) returns (more: seq<Action>, s: System)
    requires !p.ordered || !p.committed || !p.rendered
    ensures Reaches(p, more, s) && s.log == [Record(1), Record(2)] && s.rows == [Record(2)]
  {
    if !p.ordered {
      more, s := OvertakingLeavesGap(p);
    } else if !p.committed {
      more, s := AbortLeavesGap(p);
    } else {
      more, s := UnrenderedLeavesGap(p);
    }
  }

  lemma StallRun(p: Policy) returns (more: seq<Action>, s: System)
    requires !WakesUp(p)
    ensures Reaches(p, more, s) && Stalled(s) && Incomplete(s)
  {
    if !p.subscribeSafe {
      more, s := LostWakeup(p);
    } else if !p.uploadSafe {
      more, s := LostAcceptance(p);
    } else if !p.singly {
      more, s := StuckBatch(p);
    } else if !p.nextSafe {
      more, s := FailedReadStalls(p, 0);
    } else {
      more, s := UnrenderedStalls(p);
    }
  }

  // The programs come to rest with an event unread in no run, if and only if neither signal is
  // raised while it is about to be reset, no read of the server completes two messages, EvtNext
  // does not fail with a status other than 30, and every event is rendered.
  lemma MovingIffSafe(p: Policy)
    ensures AlwaysMoving(p) <==> p.subscribeSafe && p.uploadSafe && p.singly && p.nextSafe && p.rendered
  {
    if WakesUp(p) {
      forall actions: seq<Action>, s: System | Reaches(p, actions, s) ensures !Stalled(s) {
        RunOf(p, actions, s);
        NeverStalled(p, actions);
      }
    } else {
      var actions, s := StallRun(p);
    }
  }

  lemma IncompleteRun(p: Policy) returns (more: seq<Action>, s: System)
    requires !(StoresAll(p) && WakesUp(p))
    ensures Reaches(p, more, s) && Incomplete(s)
  {
    if !WakesUp(p) {
      more, s := StallRun(p);
    } else if !p.calm {
      more, s := LateInsertion(p);
      OtherRows(s);
    } else if !p.ordered {
      more, s := OvertakingSwaps(p);
    } else {
      more, s := AbortLeavesGap(p);
      OtherRows(s);
    }
  }

  // Whenever the programs rest, the whole log is stored, each event once and in order, if and only
  // if nothing goes wrong, but for a failure of EvtNext with the status 30.
  lemma CompleteIffNothingFails(p: Policy)
    ensures AlwaysComplete(p) <==>
              && p.calm && p.ordered && p.committed && p.rendered
              && p.subscribeSafe && p.uploadSafe && p.singly && p.nextSafe
  {
    if StoresAll(p) && WakesUp(p) {
      forall actions: seq<Action>, s: System | Reaches(p, actions, s) && Resting(s) ensures s.rows == From(s.log, 1) {
        RunOf(p, actions, s);
        AllStoredAtRest(p, actions);
      }
    } else {
      var actions, s := IncompleteRun(p);
    }
  }

  // ---------------------------------------------------------------- runs that do not end

  // Steps of the programs lead from one state to another.
  ghost predicate Leads(p: Policy, from: System, actions: seq<Action>, s: System) {
    && (forall i :: 0 <= i < |actions| ==> Internal(actions[i]))
    && Takes(p, from, actions, s)
  }

  lemma ThenOn(p: Policy, from: System, actions: seq<Action>, s: System, a: Action) returns (more: seq<Action>)
    requires Leads(p, from, actions, s) && Allowed(p, s, a) && Internal(a)
    ensures Leads(p, from, more, Apply(s, a)) && |more| == |actions| + 1
  {
    more := actions + [a];
    RunTakes(p, from, actions, s);
    assert more[..|more| - 1] == actions;
  }

  // A woken sender, and nothing under way.
  predicate Waking(s: System) {
    && s.forwarder.Some? && s.forwarder.value.started && s.forwarder.value.resetting.None?
    && Woken(s.forwarder.value).Some?
    && s.up == [] && s.down == [] && s.upDecoded == 0 && s.downDecoded == 0 && s.work == []
  }

  // EvtNext fails with the status 30: an empty batch asks for acceptance.
  lemma StatusThirtyAsks(p: Policy, from: System, actions: seq<Action>, s: System)
    returns (more: seq<Action>, t: System)
    requires !p.noThirty && Leads(p, from, actions, s) && Waking(s)
    ensures Leads(p, from, more, t) && |more| == |actions| + 3
    ensures t.forwarder.Some? && t.forwarder.value.started && t.forwarder.value.resetting.None?
    ensures t.work == [Work([], true, true)]
    ensures t.up == [] && t.down == [] && t.upDecoded == 0 && t.downDecoded == 0
  {
    var r := Reading(Some(EVENTS_PER_SEND), None);
    more := ThenOn(p, from, actions, s, Send(r));
    t := DoSend(s, r);
    assert t.up == [UpLog([], true)];
    more := ThenOn(p, from, more, t, Reset);
    t := DoReset(t);
    more := ThenOn(p, from, more, t, ServerReads(1));
    t := DoServerReads(t, 1);
  }

  // And its acceptance wakes the sender again.
  lemma StatusThirtyGoesRound(p: Policy, from: System, actions: seq<Action>, s: System)
    returns (more: seq<Action>, t: System)
    requires !p.noThirty && Leads(p, from, actions, s) && Waking(s)
    ensures Leads(p, from, more, t) && Waking(t) && |more| > |actions|
  {
    more, t := StatusThirtyAsks(p, from, actions, s);
    more := ThenOn(p, from, more, t, Insert(0, false));
    t := DoInsert(t, 0, false);
    assert t.down == [DownAccept(t.lid + 1)];
    more := ThenOn(p, from, more, t, ClientReads(1));
    t := DoClientReads(t, 1);
  }

  lemma {:induction false} GoesOn(p: Policy, from: System, n: nat) returns (actions: seq<Action>, s: System)
    requires !p.noThirty && Waking(from)
    ensures Leads(p, from, actions, s) && Waking(s) && |actions| >= n
  {
    if n == 0 {
      actions, s := [], from;
    } else {
      actions, s := GoesOn(p, from, n - 1);
      actions, s := StatusThirtyGoesRound(p, from, actions, s);
    }
  }

  // The programs take at most so many steps from s on.
  ghost predicate EndsWithin(p: Policy, s: System, bound: nat) {
    forall actions: seq<Action>, t: System :: Leads(p, s, actions, t) ==> |actions| <= bound
  }

  ghost predicate AlwaysEnds(p: Policy) {
    forall actions: seq<Action>, s: System :: Reaches(p, actions, s) ==> exists bound: nat :: EndsWithin(p, s, bound)
  }

  lemma {:induction false} NoSpins(p: Policy, s: System, actions: seq<Action>)
    requires p.noThirty && RunFrom(p, s, actions).Some?
    ensures forall i :: 0 <= i < |actions| ==> !Spins(actions[i])
    decreases |actions|
  {
    if actions != [] {
      NoSpins(p, s, actions[..|actions| - 1]);
    }
  }

  lemma EndsWithinLeft(p: Policy, s: System)
    requires p.noThirty
    ensures EndsWithin(p, s, Left(s))
  {
    forall actions: seq<Action>, t: System | Leads(p, s, actions, t) ensures |actions| <= Left(s) {
      assert RunFrom(p, s, actions) == Some(t);
      NoSpins(p, s, actions);
      SchedulesEnd(p, s, actions);
    }
  }

  // From every reachable state the programs take no more than a certain number of steps, if and
  // only if EvtNext does not fail with the status 30.
  lemma EndsIffNoThirty(p: Policy)
    ensures AlwaysEnds(p) <==> p.noThirty
  {
    if p.noThirty {
      forall actions: seq<Action>, s: System | Reaches(p, actions, s)
        ensures exists bound: nat :: EndsWithin(p, s, bound)
      {
        EndsWithinLeft(p, s);
      }
    } else {
      var actions, s := Begin(p, 1);
      forall bound: nat ensures !EndsWithin(p, s, bound) {
        var more, t := GoesOn(p, s, bound + 1);
      }
    }
  }
}
