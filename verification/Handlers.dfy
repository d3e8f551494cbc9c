// The objects that run the protocol, updated in place: EventForwardHandler on the client, Client
// and Database on the server. Each method is one step of the transition system, or a part of one.
module Handlers {
  import opened Bytes
  import opened Messages
  import opened EventLog
  import opened Protocol

  // ---------------------------------------------------------------- the client

  const NO_MORE_ITEMS := 259
  const ERROR_SUCCESS := 0

  class EventForwardHandler {
    var lastEventIDUploaded: nat
    var subscribeEvent: bool
    var uploadEvent: bool
    var resumed: bool
    var position: nat               // of the subscription in the log
    var handling: Option<Signal>    // the signal that the current iteration will reset
    var eventsToSend: seq<Event>

    function View(): Forwarder
      reads this
    {
      Forwarder(lastEventIDUploaded, subscribeEvent, uploadEvent, resumed, position, handling)
    }

    constructor ()
      ensures View() == NewForwarder()
    {
      lastEventIDUploaded := 0;
      subscribeEvent, uploadEvent := true, false;
      resumed := false;
      position := 0;
      handling := None;
      eventsToSend := [];
    }

    // Reads up to 30 events and collects those that the watermark lets through. The result is the
    // number read; or the status of EvtNext where it fails or there is no event; or ERROR_SUCCESS
    // where an event cannot be rendered.
    method EnumerateResults(log: seq<Event>, r: Reading) returns (count: nat)
      modifies this`position, this`eventsToSend
      ensures var read := Delivered(old(View()), log, r);
              && position == old(position) + |read|
              && eventsToSend == old(eventsToSend) + From(Rendered(read, r), lastEventIDUploaded)
              && count == if r.nextFails.Some? then r.nextFails.value
                          else if read == [] then NO_MORE_ITEMS
                          else if |Rendered(read, r)| < |read| then ERROR_SUCCESS
                          else |read|
    {
      if r.nextFails.Some? {
        return r.nextFails.value;
      }
      var events := NextEvents(View(), log);
      if |events| == 0 {
        return NO_MORE_ITEMS;
      }
      position := position + |events|;
      var complete := Collect(events, r);
      count := if complete then |events| else ERROR_SUCCESS;
    }

    // The loop of EnumerateResults.
    method Collect(events: seq<Event>, r: Reading) returns (complete: bool)
      modifies this`eventsToSend
      ensures eventsToSend == old(eventsToSend) + From(Rendered(events, r), lastEventIDUploaded)
      ensures complete <==> Rendered(events, r) == events
    {
      var i := 0;
      while i < |events|
        invariant 0 <= i <= |Rendered(events, r)|
        invariant eventsToSend == old(eventsToSend) + From(events[..i], lastEventIDUploaded)
      {
        if r.renderFails == Some(i) {
          return false;
        }
        var e := events[i];
        assert events[..i + 1][..i] == events[..i];
        if e.rid >= lastEventIDUploaded {
          eventsToSend := eventsToSend + [e];
        }
        i := i + 1;
      }
      assert events[..|events|] == events;
      complete := true;
    }

    // The first part of an iteration of the sender's loop: wake, read a batch and send it. Where both
    // signals are set, it is the subscription's that is going to be reset.
    method SendBatch(log: seq<Event>, r: Reading) returns (m: UpMessage)
      requires resumed && handling.None? && (subscribeEvent || uploadEvent)
      modifies this
      ensures m == Batch(old(View()), log, r) && View() == AfterSend(old(View()), log, r)
      ensures handling == Some(Upload) <==> !old(subscribeEvent)
      ensures subscribeEvent == old(subscribeEvent) && uploadEvent == old(uploadEvent)
    {
      handling := if subscribeEvent then Some(Subscribe) else Some(Upload);
      eventsToSend := [];
      ghost var kept := From(Rendered(Delivered(View(), log, r), r), lastEventIDUploaded);
      assert [] + kept == kept;
      var count := EnumerateResults(log, r);
      m := UpLog(eventsToSend, count == EVENTS_PER_SEND);
    }

    // The second part: reset the signal that was waited for.
    method ResetSignal()
      requires handling.Some?
      modifies this
      ensures View() == AfterReset(old(View()))
    {
      if handling == Some(Subscribe) {
        subscribeEvent := false;
      } else {
        uploadEvent := false;
      }
      handling := None;
    }

    method GetProtobufPackage(m: DownMessage)
      modifies this
      ensures View() == AfterMessage(old(View()), m)
    {
      if m.DownReturn? && lastEventIDUploaded == 0 {
        lastEventIDUploaded := m.value;
        resumed := true;
      } else if m.DownAccept? {
        lastEventIDUploaded := m.value;
        uploadEvent := true;
      }
    }
  }

  // ---------------------------------------------------------------- the database

  datatype Row = Row(client: int, event: Event)

  // The events stored for one client, in the order of insertion.
  function RowsOf(rows: seq<Row>, client: int): seq<Event> {
    if rows == [] then []
    else
      var front, r := RowsOf(rows[..|rows| - 1], client), rows[|rows| - 1];
      if r.client == client then front + [r.event] else front
  }

  function Rows(client: int, es: seq<Event>): seq<Row> {
    seq(|es|, i requires 0 <= i < |es| => Row(client, es[i]))
  }

  lemma {:induction false} RowsOfAppend(a: seq<Row>, b: seq<Row>, client: int)
    ensures RowsOf(a + b, client) == RowsOf(a, client) + RowsOf(b, client)
  {
    if b == [] {
      assert a + b == a;
    } else {
      assert (a + b)[..|a + b| - 1] == a + b[..|b| - 1];
      RowsOfAppend(a, b[..|b| - 1], client);
    }
  }

  // Rows of one client are its events, and no concern of the others.
  lemma {:induction false} RowsOfRows(es: seq<Event>, owner: int, client: int)
    ensures RowsOf(Rows(owner, es), client) == if owner == client then es else []
  {
    if es != [] {
      var front := es[..|es| - 1];
      assert Rows(owner, es)[..|es| - 1] == Rows(owner, front);
      RowsOfRows(front, owner, client);
      assert es == front + [es[|es| - 1]];
    }
  }

  class Database {
    var rows: seq<Row>

    constructor ()
      ensures rows == []
    {
      rows := [];
    }

    // One transaction. `failsAt` says at which statement it fails, if it does: the index of an
    // event, or the number of events for the commit. The failure is swallowed. The result of each
    // statement is cleared before its size is tested, so nothing is ever counted as inserted (and
    // the statement that would store the XML is not reached).
    method InsertWindowsEvents(client: int, evts: seq<Event>, failsAt: Option<nat>) returns (inserted: nat)
      modifies this
      ensures inserted == 0
      ensures rows == if failsAt.Some? && failsAt.value <= |evts| then old(rows) else old(rows) + Rows(client, evts)
      ensures forall c: int :: RowsOf(rows, c) ==
                if c == client && !(failsAt.Some? && failsAt.value <= |evts|) then RowsOf(old(rows), c) + evts
                else RowsOf(old(rows), c)
    {
      inserted := 0;
      var staged, i := rows, 0;
      while i < |evts| && failsAt != Some(i)
        invariant 0 <= i <= |evts| && staged == old(rows) + Rows(client, evts[..i])
        invariant failsAt.Some? && failsAt.value <= |evts| ==> i <= failsAt.value
        invariant rows == old(rows)
      {
        assert Rows(client, evts[..i + 1]) == Rows(client, evts[..i]) + [Row(client, evts[i])];
        staged := staged + [Row(client, evts[i])];
        i := i + 1;
      }
      if i == |evts| && failsAt != Some(i) {
        assert evts[..|evts|] == evts;
        rows := staged;
      }
      forall c: int ensures RowsOf(old(rows) + Rows(client, evts), c) ==
                            RowsOf(old(rows), c) + (if c == client then evts else []) {
        RowsOfAppend(old(rows), Rows(client, evts), c);
        RowsOfRows(evts, client, c);
      }
    }

    // The greatest id among the client's rows, or 0.
    method GetLastEventRecordID(client: int) returns (id: nat)
      ensures id == MaxRid(RowsOf(rows, client))
      ensures Below(RowsOf(rows, client), id + 1)
    {
      var r := RowsOf(rows, client);
      id := 0;
      var i := 0;
      while i < |r|
        invariant 0 <= i <= |r| && id == MaxRid(r[..i])
      {
        assert r[..i + 1][..i] == r[..i];
        if r[i].rid > id {
          id := r[i].rid;
        }
        i := i + 1;
      }
      assert r[..|r|] == r;
      MaxRidBounds(r);
    }
  }

  // ---------------------------------------------------------------- the server's side of a connection

  class ServerClient {
    const db: Database
    var dbClient: Option<int>
    var lid: nat
    var work: seq<Work>
    var outbox: seq<DownMessage>

    constructor (db: Database)
      ensures this.db == db && dbClient.None? && lid == 1 && work == [] && outbox == []
    {
      this.db := db;
      dbClient, lid, work, outbox := None, 1, [], [];
    }

    // The object holds what the transition system says of the server, but for the decoder.
    ghost predicate Shows(s: System)
      reads this, db
    {
      && lid == s.lid && work == s.work && outbox == s.down
      && (dbClient.Some? ==> RowsOf(db.rows, dbClient.value) == s.rows)
    }

    // What the dispatch needs: the client's rows are under the key that a CONNECT finds, or under
    // the one found before.
    ghost predicate CanDispatch(m: UpMessage, found: int, s: System)
      reads this, db
    {
      if m.UpConnect? then RowsOf(db.rows, found) == s.rows else dbClient.Some?
    }

    // The dispatch of readFromNetwork; `found` is the client's key in the database.
    method Dispatch(m: UpMessage, found: int, ghost s: System, ghost n: nat)
      requires Shows(s) && Arrives(s.up, s.upDecoded, n) && s.up[0] == m && CanDispatch(m, found, s)
      modifies this`dbClient, this`lid, this`work, this`outbox
      ensures Shows(DoServerReads(s, n)) && dbClient == if m.UpConnect? then Some(found) else old(dbClient)
    {
      match m
      case UpConnect =>
        dbClient := Some(found);
        outbox := outbox + [DownConnect];
      case UpQuery =>
        lid := db.GetLastEventRecordID(dbClient.value);
        outbox := outbox + [DownReturn(lid + 1)];
      case UpLog(events, needAccept) =>
        if |events| > 0 {
          lid := events[|events| - 1].rid;
        }
        work := work + [Work(events, needAccept, true)];
    }

    // The transaction, seen from the rows of one client.
    method InsertInto(client: int, evts: seq<Event>, failsAt: Option<nat>, ghost rows: seq<Event>)
      returns (inserted: nat)
      requires RowsOf(db.rows, client) == rows
      modifies db
      ensures var abort := failsAt.Some? && failsAt.value <= |evts|;
              RowsOf(db.rows, client) == if abort then rows else rows + evts
      ensures forall c: int :: c != client ==> RowsOf(db.rows, c) == RowsOf(old(db.rows), c)
    {
      inserted := db.InsertWindowsEvents(client, evts, failsAt);
    }

    // The work item, for the i-th queued insertion.
    method RunInsertion(i: nat, failsAt: Option<nat>, ghost s: System)
      requires Shows(s) && dbClient.Some? && i < |work|
      modifies this, db
      ensures var abort := failsAt.Some? && failsAt.value <= |s.work[i].events|;
              Shows(DoInsert(s, i, abort)) && dbClient == old(dbClient)
      ensures forall c: int :: c != dbClient.value ==> RowsOf(db.rows, c) == RowsOf(old(db.rows), c)
    {
      var w := work[i];
      var inserted := InsertInto(dbClient.value, w.events, failsAt, s.rows);
      if w.needAccept && w.live {
        outbox := outbox + [DownAccept(lid + 1)];
      }
      work := work[..i] + work[i + 1..];
    }
  }
}
