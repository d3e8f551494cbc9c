// What ends up in the database: gap-free and once where nothing aborts, and never twice at all.
module ProtocolStorage {
  import opened Bytes
  import opened Messages
  import opened EventLog
  import opened Protocol
  import opened ProtocolOrder

  function Queued(s: System): seq<Event> {
    s.rows + WorkEvents(s.work)
  }

  // The rows, and then the batches in the order in which they will be inserted, continue what was
  // stored before the session with what it has sent.
  predicate Pipeline(s: System) {
    if s.forwarder.None? || s.base.None? then Queued(s) <= From(s.log, 1)
    else
      && s.base.value == MaxRid(s.before) + 1 && s.before <= From(s.log, 1)
      && Queued(s) + UpEvents(s.up) == s.before + s.sent
  }

  lemma Prefixes(a: seq<Event>, b: seq<Event>, c: seq<Event>)
    requires a + b <= c
    ensures a <= c
  {
    assert a == (a + b)[..|a|];
  }

  // A session that resumed above the stored events sends the ones that follow them.
  lemma SessionContinues(log: seq<Event>, before: seq<Event>, cursor: nat, b: nat)
    requires Increasing(log) && before <= From(log, 1) && b == MaxRid(before) + 1 && cursor <= |log|
    ensures before + From(log[..cursor], b) <= From(log, 1)
  {
    var all := From(log, 1);
    var rest := all[|before|..];
    assert all == before + rest;
    FromIncreasing(log, 1);
    FromAtLeast(log, 1);
    Resume(before, rest);
    FromFrom(log, 1, b);
    FromPrefix(log, cursor, b);
  }

  // What the session has sent is all that its first watermark keeps of the events that it has read.
  predicate NothingMissed(s: System) {
    s.forwarder.Some? && s.base.Some? ==>
      var c := s.forwarder.value.cursor;
      c <= |s.log| && s.sent == From(s.log[..c], s.base.value)
  }

  lemma RowsArePrefix(s: System)
    requires Inv(s) && Pipeline(s) && NothingMissed(s)
    ensures Queued(s) <= From(s.log, 1) && s.rows <= From(s.log, 1)
  {
    if s.forwarder.Some? && s.base.Some? {
      SessionContinues(s.log, s.before, s.forwarder.value.cursor, s.base.value);
      Prefixes(Queued(s), UpEvents(s.up), From(s.log, 1));
    }
    Prefixes(s.rows, WorkEvents(s.work), From(s.log, 1));
  }

  // ---------------------------------------------------------------- nothing is missed

  lemma SendMissesNothing(s: System, r: Reading)
    requires Inv(s) && NothingMissed(s) && Enabled(s, Send(r)) && AllRendered(s, Send(r))
    ensures NothingMissed(DoSend(s, r))
  {
    var f, b := s.forwarder.value, s.base.value;
    DeliveredAre(f, s.log, r);
    NothingLost(s.log, f.cursor, AfterSend(f, s.log, r).cursor, b, f.watermark, s.sent);
  }

  lemma AppendMissesNothing(s: System, e: Event)
    requires NothingMissed(s)
    ensures NothingMissed(DoAppend(s, e))
  {
    if s.forwarder.Some? && s.base.Some? {
      var c := s.forwarder.value.cursor;
      assert (s.log + [e])[..c] == s.log[..c];
    }
  }

  lemma QueryMissesNothing(s: System, n: nat)
    requires Inv(s) && Enabled(s, ServerReads(n)) && s.up[0].UpQuery?
    ensures NothingMissed(DoServerReads(s, n))
  {
    assert s.log[..0] == [];
  }

  lemma ApplyMissesNothing(s: System, a: Action)
    requires Inv(s) && NothingMissed(s) && Enabled(s, a) && AllRendered(s, a)
    ensures NothingMissed(Apply(s, a))
  {
    match a
    case Append(e) => AppendMissesNothing(s, e);
    case Send(r) => SendMissesNothing(s, r);
    case ServerReads(n) => if s.up[0].UpQuery? { QueryMissesNothing(s, n); }
    case _ =>
  }

  // ---------------------------------------------------------------- steps

  lemma AppendKeepsPipeline(s: System, e: Event)
    requires Pipeline(s)
    ensures Pipeline(DoAppend(s, e))
  {
    assert (s.log + [e])[..|s.log|] == s.log;
  }

  // Regrouping of what is queued (q), under way (u), stored before (b) and sent (n).
  lemma Regroup(q: seq<Event>, u: seq<Event>, b: seq<Event>, n: seq<Event>, more: seq<Event>)
    requires q + u == b + n
    ensures q + (u + more) == b + (n + more)
  {
    assert q + (u + more) == (q + u) + more;
    assert b + (n + more) == (b + n) + more;
  }

  lemma SendExtends(q: seq<Event>, up: seq<UpMessage>, b: seq<Event>, n: seq<Event>, m: UpMessage)
    requires m.UpLog? && q + UpEvents(up) == b + n
    ensures q + UpEvents(up + [m]) == b + (n + m.events)
  {
    UpEventsSnoc(up, m);
    Regroup(q, UpEvents(up), b, n, m.events);
  }

  lemma SendKeepsPipeline(s: System, r: Reading)
    requires Inv(s) && Pipeline(s) && Enabled(s, Send(r))
    ensures Pipeline(DoSend(s, r))
  {
    SendExtends(Queued(s), s.up, s.before, s.sent, Batch(s.forwarder.value, s.log, r));
  }

  lemma BatchArrives(s: System, n: nat)
    requires Inv(s) && Pipeline(s) && Enabled(s, ServerReads(n)) && s.up[0].UpLog?
    ensures Pipeline(DoServerReads(s, n))
  {
    var es, rest := s.up[0].events, UpEvents(s.up[1..]);
    UpEventsHead(s.up);
    WorkEventsSnoc(s.work, Work(es, s.up[0].needAccept, true));
    Associates(s.rows, WorkEvents(s.work), es);
    Associates(Queued(s), es, rest);
  }

  lemma QueryArrives(s: System, n: nat)
    requires Inv(s) && Pipeline(s) && NothingMissed(s)
    requires Enabled(s, ServerReads(n)) && s.up[0].UpQuery? && Calm(s, ServerReads(n))
    ensures Pipeline(DoServerReads(s, n))
  {
    NoWork(s.work);
    assert s.rows + [] == s.rows;
    RowsArePrefix(s);
  }

  lemma ServerReadsKeepsPipeline(s: System, n: nat)
    requires Inv(s) && Pipeline(s) && NothingMissed(s) && Enabled(s, ServerReads(n)) && Calm(s, ServerReads(n))
    ensures Pipeline(DoServerReads(s, n))
  {
    match s.up[0]
    case UpLog(_, _) => BatchArrives(s, n);
    case UpQuery => QueryArrives(s, n);
    case UpConnect =>
  }

  lemma InsertKeepsPipeline(s: System)
    requires Inv(s) && Pipeline(s) && Enabled(s, Insert(0, false))
    ensures Pipeline(DoInsert(s, 0, false))
  {
    WorkEventsHead(s.work);
    assert s.work[..0] + s.work[1..] == s.work[1..];
    Associates(s.rows, s.work[0].events, WorkEvents(s.work[1..]));
  }

  lemma ConnectKeepsPipeline(s: System)
    requires Pipeline(s) && s.forwarder.None?
    ensures Pipeline(DoConnect(s))
  {
  }

  lemma DisconnectKeepsPipeline(s: System)
    requires Inv(s) && Pipeline(s) && NothingMissed(s)
    ensures Pipeline(DoDisconnect(s))
  {
    RowsArePrefix(s);
    OrphansKeepEvents(s.work);
  }

  lemma DropWorkKeepsPipeline(s: System)
    requires Inv(s) && Pipeline(s) && NothingMissed(s) && s.forwarder.None?
    ensures Pipeline(DoDropWork(s))
  {
    RowsArePrefix(s);
    assert s.rows + [] == s.rows;
  }

  lemma ResetKeepsPipeline(s: System)
    requires Pipeline(s) && Enabled(s, Reset)
    ensures Pipeline(DoReset(s))
  {
  }

  lemma ClientReadsKeepsPipeline(s: System, n: nat)
    requires Pipeline(s) && Enabled(s, ClientReads(n))
    ensures Pipeline(DoClientReads(s, n))
  {
    UpEventsSnoc(s.up, UpQuery);
    assert UpEvents(s.up) + [] == UpEvents(s.up);
  }

  lemma ApplyKeepsPipeline(s: System, a: Action)
    requires Inv(s) && Pipeline(s) && NothingMissed(s) && Enabled(s, a) && Calm(s, a) && Ordered(a) && Committed(a)
    ensures Pipeline(Apply(s, a))
  {
    match a
    case Append(e) => AppendKeepsPipeline(s, e);
    case Connect => ConnectKeepsPipeline(s);
    case Disconnect => DisconnectKeepsPipeline(s);
    case DropWork => DropWorkKeepsPipeline(s);
    case Send(r) => SendKeepsPipeline(s, r);
    case Reset => ResetKeepsPipeline(s);
    case ClientReads(n) => ClientReadsKeepsPipeline(s, n);
    case ServerReads(n) => ServerReadsKeepsPipeline(s, n);
    case Insert(_, _) => InsertKeepsPipeline(s);
  }

  predicate StoresAll(p: Policy) { p.calm && p.ordered && p.committed && p.rendered }

  lemma {:induction false} RunsKeepPipeline(p: Policy, actions: seq<Action>)
    requires StoresAll(p) && RunFrom(p, Start(), actions).Some?
    ensures var s := RunFrom(p, Start(), actions).value; Pipeline(s) && NothingMissed(s)
    decreases |actions|
  {
    if actions != [] {
      var front, a := actions[..|actions| - 1], actions[|actions| - 1];
      RunsKeepPipeline(p, front);
      RunsKeep(p, front);
      var s := RunFrom(p, Start(), front).value;
      ApplyKeepsPipeline(s, a);
      ApplyMissesNothing(s, a);
    }
  }

  // The rows are the log's events up to some id, and nothing else.
  ghost predicate ExactlyUpTo(rows: seq<Event>, log: seq<Event>) {
    && Increasing(rows)
    && forall e :: e in rows <==> e in log && 1 <= e.rid <= MaxRid(rows)
  }

  lemma PrefixIsExact(rows: seq<Event>, log: seq<Event>)
    requires Increasing(log) && rows <= From(log, 1)
    ensures ExactlyUpTo(rows, log)
  {
    var all := From(log, 1);
    var rest := all[|rows|..];
    assert all == rows + rest;
    FromIncreasing(log, 1);
    FromAtLeast(log, 1);
    RestIsAbove(rows, rest);
    MaxRidBounds(rows);
    forall e ensures e in rows <==> e in log && 1 <= e.rid <= MaxRid(rows) {
      FromHolds(log, 1, e);
      assert e in all <==> e in rows || e in rest;
    }
  }

  // Gap-free and exactly once: over any number of sessions, disconnects and new events, if no
  // transaction aborts or overtakes another and every event is rendered, the rows are the log's events
  // with an id of at most the greatest stored id, each of them once and in the order of the log.
  lemma ExactlyOnce(p: Policy, actions: seq<Action>)
    requires StoresAll(p) && RunFrom(p, Start(), actions).Some?
    ensures var s := RunFrom(p, Start(), actions).value;
            s.rows <= From(s.log, 1) && ExactlyUpTo(s.rows, s.log)
  {
    var s := RunFrom(p, Start(), actions).value;
    RunsKeep(p, actions);
    RunsKeepPipeline(p, actions);
    RowsArePrefix(s);
    PrefixIsExact(s.rows, s.log);
  }
}
