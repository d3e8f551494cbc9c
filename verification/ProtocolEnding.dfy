// How a run ends: the two programs always come to rest, and where nothing goes wrong, the whole log
// is stored then.
module ProtocolEnding {
  import opened Bytes
  import opened Messages
  import opened EventLog
  import opened Protocol
  import opened ProtocolOrder
  import opened ProtocolStorage
  import opened ProtocolProgress

  // ---------------------------------------------------------------- what is left to do

  function Sum(costs: seq<nat>): nat {
    if costs == [] then 0 else Sum(costs[..|costs| - 1]) + costs[|costs| - 1]
  }

  lemma {:induction false} SumAppend(a: seq<nat>, b: seq<nat>)
    ensures Sum(a + b) == Sum(a) + Sum(b)
  {
    if b == [] {
      assert a + b == a;
    } else {
      assert (a + b)[..|a + b| - 1] == a + b[..|b| - 1];
      SumAppend(a, b[..|b| - 1]);
    }
  }

  lemma SumOne(c: nat)
    ensures Sum([c]) == c
  {
    assert [c][..0] == [];
  }

  lemma SumSnoc(costs: seq<nat>, c: nat)
    ensures Sum(costs + [c]) == Sum(costs) + c
  {
    SumAppend(costs, [c]);
    SumOne(c);
  }

  lemma SumAround(all: seq<nat>, others: seq<nat>, before: seq<nat>, c: nat, after: seq<nat>)
    requires all == before + ([c] + after) && others == before + after
    ensures Sum(all) == Sum(others) + c
  {
    SumAppend(before, [c] + after);
    SumAppend([c], after);
    SumOne(c);
    SumAppend(before, after);
  }

  function Costs<T>(items: seq<T>, cost: T -> nat): (costs: seq<nat>)
    ensures |costs| == |items| && forall i :: 0 <= i < |items| ==> costs[i] == cost(items[i])
  {
    seq(|items|, i requires 0 <= i < |items| => cost(items[i]))
  }

  function Total<T>(items: seq<T>, cost: T -> nat): nat { Sum(Costs(items, cost)) }

  lemma TotalSnoc<T>(items: seq<T>, item: T, cost: T -> nat)
    ensures Total(items + [item], cost) == Total(items, cost) + cost(item)
  {
    assert Costs(items + [item], cost) == Costs(items, cost) + [cost(item)];
    SumSnoc(Costs(items, cost), cost(item));
  }

  lemma TotalWithout<T>(items: seq<T>, i: nat, cost: T -> nat)
    requires i < |items|
    ensures Total(items, cost) == Total(items[..i] + items[i + 1..], cost) + cost(items[i])
  {
    var costs := Costs(items, cost);
    assert costs == costs[..i] + ([cost(items[i])] + costs[i + 1..]);
    assert Costs(items[..i] + items[i + 1..], cost) == costs[..i] + costs[i + 1..];
    SumAround(costs, costs[..i] + costs[i + 1..], costs[..i], cost(items[i]), costs[i + 1..]);
  }

  lemma TotalHead<T>(items: seq<T>, cost: T -> nat)
    requires items != []
    ensures Total(items, cost) == cost(items[0]) + Total(items[1..], cost)
  {
    var c, others := cost(items[0]), Costs(items[1..], cost);
    assert Costs(items, cost) == [c] + others;
    SumAppend([c], others);
    SumOne(c);
  }

  // The cost of a message is more than that of what handling it leads to.
  function UpCost(m: UpMessage): nat {
    match m
    case UpConnect => 4
    case UpQuery => 2
    case UpLog(_, asks) => 2 + 5 * One(asks)
  }

  function DownCost(m: DownMessage): nat {
    match m
    case DownConnect => 3
    case DownReturn(_) => 1
    case DownAccept(_) => 5
  }

  function WorkCost(w: Work): nat { 1 + 5 * One(WillAnswer(w)) }

  // The signals that are set and not about to be reset.
  function Live(f: Forwarder): nat {
    One(f.subscribe && f.resetting != Some(Subscribe)) + One(f.upload && f.resetting != Some(Upload))
  }

  function SenderCost(f: Forwarder, log: seq<Event>): nat {
    4 * Live(f) + 5 * (|Unread(f, log)| / EVENTS_PER_SEND) + One(f.resetting.Some?)
  }

  // What the two programs have left to do.
  function Left(s: System): nat {
    Total(s.up, UpCost) + Total(s.down, DownCost) + Total(s.work, WorkCost)
    + if s.forwarder.Some? then SenderCost(s.forwarder.value, s.log) else 0
  }

  // ---------------------------------------------------------------- every step leaves less

  // The one send that makes as much work as it does: EvtNext fails with the status 30, which is
  // taken for a full batch.
  predicate Spins(a: Action) { !NoThirty(a) }

  lemma ThirtyLess(u: nat)
    requires u >= EVENTS_PER_SEND
    ensures (u - EVENTS_PER_SEND) / EVENTS_PER_SEND == u / EVENTS_PER_SEND - 1
  {
  }

  lemma SendCostsSender(f: Forwarder, log: seq<Event>, r: Reading)
    requires f.resetting.None? && Woken(f).Some? && r.nextFails != Some(EVENTS_PER_SEND)
    ensures SenderCost(AfterSend(f, log, r), log) + UpCost(Batch(f, log, r)) < SenderCost(f, log)
  {
    var u, n := |Unread(f, log)|, |Delivered(f, log, r)|;
    assert |Unread(AfterSend(f, log, r), log)| == u - n;
    if n == EVENTS_PER_SEND {
      ThirtyLess(u);
    }
    assert Live(AfterSend(f, log, r)) + 1 == Live(f);
  }

  lemma SendLeavesLess(s: System, r: Reading)
    requires Enabled(s, Send(r)) && !Spins(Send(r))
    ensures Left(DoSend(s, r)) < Left(s)
  {
    var f := s.forwarder.value;
    SendCostsSender(f, s.log, r);
    TotalSnoc(s.up, Batch(f, s.log, r), UpCost);
  }

  lemma ResetLeavesLess(s: System)
    requires Enabled(s, Reset)
    ensures Left(DoReset(s)) < Left(s)
  {
  }

  lemma ServerReadsLeavesLess(s: System, n: nat)
    requires Enabled(s, ServerReads(n))
    ensures Left(DoServerReads(s, n)) < Left(s)
  {
    TotalHead(s.up, UpCost);
    match s.up[0]
    case UpConnect => TotalSnoc(s.down, DownConnect, DownCost);
    case UpQuery => TotalSnoc(s.down, DownReturn(MaxRid(s.rows) + 1), DownCost);
    case UpLog(es, asks) => TotalSnoc(s.work, Work(es, asks, true), WorkCost);
  }

  lemma InsertLeavesLess(s: System, i: nat, abort: bool)
    requires i < |s.work|
    ensures Left(DoInsert(s, i, abort)) < Left(s)
  {
    TotalWithout(s.work, i, WorkCost);
    TotalSnoc(s.down, DownAccept(s.lid + 1), DownCost);
  }

  lemma HandlingCosts(f: Forwarder, log: seq<Event>, m: DownMessage)
    ensures SenderCost(AfterMessage(f, m), log) + (if m.DownConnect? then UpCost(UpQuery) else 0)
            < SenderCost(f, log) + DownCost(m)
  {
    assert Unread(AfterMessage(f, m), log) == Unread(f, log);
  }

  lemma ClientReadsLeavesLess(s: System, n: nat)
    requires Enabled(s, ClientReads(n))
    ensures Left(DoClientReads(s, n)) < Left(s)
  {
    HandlingCosts(s.forwarder.value, s.log, s.down[0]);
    TotalHead(s.down, DownCost);
    TotalSnoc(s.up, UpQuery, UpCost);
  }

  // Whatever the state, each step of the programs but the one above leaves less to do.
  lemma StepLeavesLess(s: System, a: Action)
    requires Enabled(s, a) && Internal(a) && !Spins(a)
    ensures Left(Apply(s, a)) < Left(s)
  {
    match a
    case Send(r) => SendLeavesLess(s, r);
    case Reset => ResetLeavesLess(s);
    case ServerReads(n) => ServerReadsLeavesLess(s, n);
    case Insert(i, abort) => InsertLeavesLess(s, i, abort);
    case ClientReads(n) => ClientReadsLeavesLess(s, n);
  }

  // So from any state, however the programs are scheduled and their reads are cut, they take no
  // more than Left(s) steps.
  lemma {:induction false} SchedulesEnd(p: Policy, s: System, actions: seq<Action>)
    requires RunFrom(p, s, actions).Some?
    requires forall i :: 0 <= i < |actions| ==> Internal(actions[i]) && !Spins(actions[i])
    ensures |actions| + Left(RunFrom(p, s, actions).value) <= Left(s)
    decreases |actions|
  {
    if actions != [] {
      var front, a := actions[..|actions| - 1], actions[|actions| - 1];
      SchedulesEnd(p, s, front);
      StepLeavesLess(RunFrom(p, s, front).value, a);
    }
  }

  // ---------------------------------------------------------------- the log at rest

  lemma ResumeAll(log: seq<Event>, before: seq<Event>, b: nat)
    requires Increasing(log) && before <= From(log, 1) && b == MaxRid(before) + 1
    ensures before + From(log, b) == From(log, 1)
  {
    var all := From(log, 1);
    var rest := all[|before|..];
    assert all == before + rest;
    FromIncreasing(log, 1);
    FromAtLeast(log, 1);
    Resume(before, rest);
    FromFrom(log, 1, b);
  }

  // Where no assumption is dropped: whenever the programs rest in a session, every event of the log
  // is stored, once and in the order of the log.
  lemma AllStoredAtRest(p: Policy, actions: seq<Action>)
    requires StoresAll(p) && WakesUp(p) && RunFrom(p, Start(), actions).Some?
    requires Resting(RunFrom(p, Start(), actions).value)
    ensures var s := RunFrom(p, Start(), actions).value; s.rows == From(s.log, 1)
  {
    var s := RunFrom(p, Start(), actions).value;
    RunsKeep(p, actions);
    RunsKeepPipeline(p, actions);
    NeverStalled(p, actions);
    RunsKeepMoving(p, actions);
    RestingIsComplete(s);
  }

  lemma RestingIsComplete(s: System)
    requires Inv(s) && Pipeline(s) && NothingMissed(s) && Resting(s) && !Stalled(s) && s.upDecoded == 0
    ensures s.rows == From(s.log, 1)
  {
    var f := s.forwarder.value;
    assert f.started && s.base.Some?;
    assert s.log[..f.cursor] == s.log;
    assert s.rows + [] == s.rows;
    ResumeAll(s.log, s.before, s.base.value);
  }

  lemma OneMore(p: Policy, actions: seq<Action>, s: System, a: Action)
    requires Takes(p, Start(), actions, s) && Allowed(p, s, a)
    ensures RunFrom(p, Start(), actions + [a]) == Some(Apply(s, a))
  {
    RunTakes(p, Start(), actions, s);
    assert (actions + [a])[..|actions|] == actions;
  }

  // A run of a session that goes on with steps of the programs until they rest.
  lemma {:induction false} RunsOut(p: Policy, actions: seq<Action>) returns (more: seq<Action>)
    requires RunFrom(p, Start(), actions).Some? && RunFrom(p, Start(), actions).value.forwarder.Some?
    ensures actions <= more && forall i :: |actions| <= i < |more| ==> Internal(more[i])
    ensures RunFrom(p, Start(), more).Some? && Resting(RunFrom(p, Start(), more).value)
    ensures RunFrom(p, Start(), more).value.log == RunFrom(p, Start(), actions).value.log
    decreases Left(RunFrom(p, Start(), actions).value)
  {
    var s := RunFrom(p, Start(), actions).value;
    if Resting(s) {
      more := actions;
    } else {
      RunsKeep(p, actions);
      SomeStepIsAllowed(p, s);
      var next := actions + [SomeStep(s)];
      RunTakes(p, Start(), actions, s);
      OneMore(p, actions, s, SomeStep(s));
      StepLeavesLess(s, SomeStep(s));
      InternalKeepsSession(s, SomeStep(s));
      more := RunsOut(p, next);
    }
  }

  lemma InternalKeepsSession(s: System, a: Action)
    requires Enabled(s, a) && Internal(a) && s.forwarder.Some?
    ensures Apply(s, a).forwarder.Some? && Apply(s, a).log == s.log
  {
  }

  // From every reachable state of a session, if nothing goes wrong, the programs come to rest with
  // the whole log stored, if no event is logged meanwhile and the connection holds.
  lemma LogIsStoredInTheEnd(p: Policy, actions: seq<Action>) returns (more: seq<Action>)
    requires StoresAll(p) && WakesUp(p)
    requires RunFrom(p, Start(), actions).Some? && RunFrom(p, Start(), actions).value.forwarder.Some?
    ensures actions <= more && forall i :: |actions| <= i < |more| ==> Internal(more[i])
    ensures RunFrom(p, Start(), more).Some? && Resting(RunFrom(p, Start(), more).value)
    ensures RunFrom(p, Start(), more).value.rows == From(RunFrom(p, Start(), actions).value.log, 1)
  {
    more := RunsOut(p, actions);
    AllStoredAtRest(p, more);
  }
}
