// No event is stored twice, even where transactions abort and insertions run out of order.
module ProtocolUnique {
  import opened Messages
  import opened EventLog
  import opened Protocol
  import opened ProtocolOrder

  function Rids(es: seq<Event>): multiset<nat> {
    if es == [] then multiset{} else Rids(es[..|es| - 1]) + multiset{es[|es| - 1].rid}
  }

  lemma {:induction false} RidsAppend(a: seq<Event>, b: seq<Event>)
    ensures Rids(a + b) == Rids(a) + Rids(b)
  {
    if b == [] {
      assert a + b == a;
    } else {
      assert (a + b)[..|a + b| - 1] == a + b[..|b| - 1];
      RidsAppend(a, b[..|b| - 1]);
    }
  }

  lemma {:induction false} RidsBound(es: seq<Event>, v: nat, w: nat)
    ensures AtLeast(es, v) ==> forall r :: r in Rids(es) ==> r >= v
    ensures Below(es, w) ==> forall r :: r in Rids(es) ==> r < w
  {
    if es != [] {
      RidsBound(es[..|es| - 1], v, w);
    }
  }

  ghost predicate Unique(m: multiset<nat>) {
    forall r :: m[r] <= 1
  }

  lemma {:induction false} IncreasingUnique(es: seq<Event>)
    requires Increasing(es)
    ensures Unique(Rids(es))
  {
    if es != [] {
      var front := es[..|es| - 1];
      IncreasingUnique(front);
      RidsBound(front, 0, es[|es| - 1].rid);
    }
  }

  // No two of the events have one id.
  predicate Distinct(es: seq<Event>) {
    forall i, j :: 0 <= i < j < |es| ==> es[i].rid != es[j].rid
  }

  lemma {:induction false} RidsHold(es: seq<Event>, i: nat)
    requires i < |es|
    ensures es[i].rid in Rids(es)
  {
    if i < |es| - 1 {
      RidsHold(es[..|es| - 1], i);
    }
  }

  lemma {:induction false} UniqueDistinct(es: seq<Event>)
    requires Unique(Rids(es))
    ensures Distinct(es)
  {
    if es != [] {
      var front, last := es[..|es| - 1], es[|es| - 1];
      forall r ensures Rids(front)[r] <= 1 {
        assert Rids(es)[r] <= 1;
      }
      UniqueDistinct(front);
      forall i | 0 <= i < |front| ensures es[i].rid != last.rid {
        RidsHold(front, i);
        assert Rids(es)[last.rid] <= 1;
      }
    }
  }

  // ---------------------------------------------------------------- the invariant

  // Every id that is stored, queued or under way.
  function Held(s: System): multiset<nat> {
    Rids(s.rows) + Rids(WorkEvents(s.work)) + Rids(UpEvents(s.up))
  }

  ghost predicate AllBelow(m: multiset<nat>, c: nat) {
    forall r :: r in m ==> r < c
  }

  ghost predicate HeldOnce(s: System) {
    && Unique(Held(s))
    && (s.forwarder.Some? && s.base.Some? ==> AllBelow(Held(s), Ceiling(s.base.value, s.sent)))
  }

  lemma Fewer(m: multiset<nat>, k: multiset<nat>)
    requires m <= k
    ensures Unique(k) ==> Unique(m)
    ensures forall c :: AllBelow(k, c) ==> AllBelow(m, c)
  {
    forall r ensures m[r] <= k[r] {
    }
  }

  // ---------------------------------------------------------------- steps

  lemma JoinAbove(m: multiset<nat>, k: multiset<nat>, c: nat, d: nat)
    requires Unique(m) && Unique(k) && AllBelow(m, c) && c <= d && AllBelow(k, d)
    requires forall r :: r in k ==> r >= c
    ensures Unique(m + k) && AllBelow(m + k, d)
  {
    forall r ensures (m + k)[r] <= 1 {
      assert r in m ==> r !in k;
    }
  }

  lemma SendHolds(s: System, r: Reading)
    requires s.forwarder.Some?
    ensures Held(DoSend(s, r)) == Held(s) + Rids(Batch(s.forwarder.value, s.log, r).events)
  {
    var m := Batch(s.forwarder.value, s.log, r);
    UpEventsSnoc(s.up, m);
    RidsAppend(UpEvents(s.up), m.events);
  }

  // A batch of increasing events above all that is held.
  lemma JoinBatch(m: multiset<nat>, more: seq<Event>, c: nat, d: nat)
    requires Unique(m) && AllBelow(m, c) && c <= d && Increasing(more) && AtLeast(more, c) && Below(more, d)
    ensures Unique(m + Rids(more)) && AllBelow(m + Rids(more), d)
  {
    IncreasingUnique(more);
    RidsBound(more, c, d);
    JoinAbove(m, Rids(more), c, d);
  }

  lemma SendKeepsOnce(s: System, r: Reading)
    requires Inv(s) && HeldOnce(s) && Enabled(s, Send(r))
    ensures HeldOnce(DoSend(s, r))
  {
    var f, b := s.forwarder.value, s.base.value;
    var more := Batch(f, s.log, r).events;
    BatchInRange(f, s.log, b, s.sent, r);
    JoinBatch(Held(s), more, Ceiling(b, s.sent), Ceiling(b, s.sent + more));
    SendHolds(s, r);
  }

  // The ids of one queued batch and of the others.
  lemma EventsAround(before: seq<Work>, w: Work, after: seq<Work>)
    ensures WorkEvents(before + ([w] + after)) == WorkEvents(before) + (w.events + WorkEvents(after))
  {
    WorkEventsAppend(before, [w] + after);
    WorkEventsHead([w] + after);
    assert ([w] + after)[1..] == after;
  }

  lemma RidsAround(a: seq<Event>, b: seq<Event>, c: seq<Event>)
    ensures Rids(a + (b + c)) == Rids(a + c) + Rids(b)
  {
    RidsAppend(a, b + c);
    RidsAppend(b, c);
    RidsAppend(a, c);
  }

  lemma RidsAroundWork(work: seq<Work>, others: seq<Work>, before: seq<Work>, w: Work, after: seq<Work>)
    requires work == before + ([w] + after) && others == before + after
    ensures Rids(WorkEvents(work)) == Rids(WorkEvents(others)) + Rids(w.events)
  {
    EventsAround(before, w, after);
    WorkEventsAppend(before, after);
    RidsAround(WorkEvents(before), w.events, WorkEvents(after));
  }

  lemma RidsWithout(work: seq<Work>, i: nat)
    requires i < |work|
    ensures Rids(WorkEvents(work)) == Rids(WorkEvents(work[..i] + work[i + 1..])) + Rids(work[i].events)
  {
    WorkAround(work, i);
    RidsAroundWork(work, work[..i] + work[i + 1..], work[..i], work[i], work[i + 1..]);
  }

  // A step that takes ids away, at most, and leaves the session's history alone.
  lemma HeldShrinks(s: System, t: System)
    requires HeldOnce(s) && Held(t) <= Held(s)
    requires t.forwarder.Some? && t.base.Some? ==> s.forwarder.Some? && t.base == s.base && t.sent == s.sent
    ensures HeldOnce(t)
  {
    Fewer(Held(t), Held(s));
  }

  lemma ArrivalHolds(work: seq<Work>, up: seq<UpMessage>)
    requires up != [] && up[0].UpLog?
    ensures Rids(WorkEvents(work + [Work(up[0].events, up[0].needAccept, true)])) + Rids(UpEvents(up[1..]))
         == Rids(WorkEvents(work)) + Rids(UpEvents(up))
  {
    var es := up[0].events;
    UpEventsHead(up);
    WorkEventsSnoc(work, Work(es, up[0].needAccept, true));
    RidsAppend(WorkEvents(work), es);
    RidsAppend(es, UpEvents(up[1..]));
  }

  lemma HeldMoves(s: System, t: System)
    requires t.rows == s.rows
    requires Rids(WorkEvents(t.work)) + Rids(UpEvents(t.up)) == Rids(WorkEvents(s.work)) + Rids(UpEvents(s.up))
    ensures Held(t) == Held(s)
  {
    assert Held(t) == Rids(t.rows) + (Rids(WorkEvents(t.work)) + Rids(UpEvents(t.up)));
    assert Held(s) == Rids(s.rows) + (Rids(WorkEvents(s.work)) + Rids(UpEvents(s.up)));
  }

  lemma BatchArrivesOnce(s: System, n: nat)
    requires HeldOnce(s) && Enabled(s, ServerReads(n)) && s.up[0].UpLog?
    ensures HeldOnce(DoServerReads(s, n))
  {
    var t := DoServerReads(s, n);
    ArrivalHolds(s.work, s.up);
    HeldMoves(s, t);
    HeldShrinks(s, t);
  }

  lemma RowsBelow(rows: seq<Event>)
    ensures AllBelow(Rids(rows), MaxRid(rows) + 1)
  {
    MaxRidBounds(rows);
    RidsBound(rows, 0, MaxRid(rows) + 1);
  }

  lemma QueryArrivesOnce(s: System, n: nat)
    requires HeldOnce(s) && Enabled(s, ServerReads(n)) && s.up == [UpQuery] && s.work == [] && s.sent == []
    ensures HeldOnce(DoServerReads(s, n))
  {
    var t := DoServerReads(s, n);
    RowsBelow(s.rows);
    assert Rids(WorkEvents(t.work)) == multiset{} && Rids(UpEvents(t.up)) == multiset{};
    assert Held(t) == Rids(s.rows);
    assert Rids(s.rows) <= Held(s);
    Fewer(Rids(s.rows), Held(s));
  }

  lemma ConnectArrivesOnce(s: System, n: nat)
    requires HeldOnce(s) && Enabled(s, ServerReads(n)) && s.up[0].UpConnect? && s.base.None?
    ensures HeldOnce(DoServerReads(s, n))
  {
    UpEventsHead(s.up);
    assert [] + UpEvents(s.up[1..]) == UpEvents(s.up[1..]);
    assert Held(DoServerReads(s, n)) == Held(s);
  }

  lemma ServerReadsKeepsOnce(s: System, n: nat)
    requires Inv(s) && HeldOnce(s) && Enabled(s, ServerReads(n)) && Calm(s, ServerReads(n))
    ensures HeldOnce(DoServerReads(s, n))
  {
    match s.up[0]
    case UpLog(_, _) => BatchArrivesOnce(s, n);
    case UpQuery =>
      NoWork(s.work);
      QueryArrivesOnce(s, n);
    case UpConnect => ConnectArrivesOnce(s, n);
  }

  lemma InsertHolds(rows: seq<Event>, work: seq<Work>, i: nat, abort: bool)
    requires i < |work|
    ensures Rids(if abort then rows else rows + work[i].events) + Rids(WorkEvents(work[..i] + work[i + 1..]))
         <= Rids(rows) + Rids(WorkEvents(work))
  {
    RidsWithout(work, i);
    RidsAppend(rows, work[i].events);
  }

  lemma HeldSplit(s: System, t: System)
    requires t.up == s.up
    requires Rids(t.rows) + Rids(WorkEvents(t.work)) <= Rids(s.rows) + Rids(WorkEvents(s.work))
    ensures Held(t) <= Held(s)
  {
  }

  lemma InsertKeepsOnce(s: System, i: nat, abort: bool)
    requires HeldOnce(s) && i < |s.work|
    ensures HeldOnce(DoInsert(s, i, abort))
  {
    var t := DoInsert(s, i, abort);
    InsertHolds(s.rows, s.work, i, abort);
    HeldSplit(s, t);
    HeldShrinks(s, t);
  }

  lemma ClientReadsKeepsOnce(s: System, n: nat)
    requires HeldOnce(s) && Enabled(s, ClientReads(n))
    ensures HeldOnce(DoClientReads(s, n))
  {
    UpEventsSnoc(s.up, UpQuery);
    assert UpEvents(s.up) + [] == UpEvents(s.up);
    HeldShrinks(s, DoClientReads(s, n));
  }

  lemma OtherKeepsOnce(s: System, a: Action)
    requires Inv(s) && HeldOnce(s) && Enabled(s, a)
    requires a.Append? || a.Connect? || a.Disconnect? || a.DropWork? || a.Reset?
    ensures HeldOnce(Apply(s, a))
  {
    if a.Disconnect? {
      OrphansKeepEvents(s.work);
    }
    HeldShrinks(s, Apply(s, a));
  }

  lemma {:induction false} RunsKeepOnce(p: Policy, actions: seq<Action>)
    requires p.calm && RunFrom(p, Start(), actions).Some?
    ensures HeldOnce(RunFrom(p, Start(), actions).value)
    decreases |actions|
  {
    if actions != [] {
      var front := actions[..|actions| - 1];
      var s, a := RunFrom(p, Start(), front).value, actions[|actions| - 1];
      RunsKeepOnce(p, front);
      RunsKeep(p, front);
      match a
      case Send(r) => SendKeepsOnce(s, r);
      case ServerReads(n) => ServerReadsKeepsOnce(s, n);
      case Insert(i, abort) => InsertKeepsOnce(s, i, abort);
      case ClientReads(n) => ClientReadsKeepsOnce(s, n);
      case _ => OtherKeepsOnce(s, a);
    }
  }

  // No event id is ever stored twice, within a session or across sessions, whatever aborts and in
  // whatever order the insertions run.
  lemma NeverTwice(p: Policy, actions: seq<Action>)
    requires p.calm && RunFrom(p, Start(), actions).Some?
    ensures Distinct(RunFrom(p, Start(), actions).value.rows)
  {
    var s := RunFrom(p, Start(), actions).value;
    RunsKeepOnce(p, actions);
    assert Rids(s.rows) <= Held(s);
    Fewer(Rids(s.rows), Held(s));
    UniqueDistinct(s.rows);
  }
}
